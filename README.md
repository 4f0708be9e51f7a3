# Tachograph compliance pipeline, modelled in Dafny

This project models the core of the drag-drop compliance tool for road
transport drivers. The tool reads a driver's activity records and checks them
against EU Regulation 561/2006 style limits on driving and rest. The
records come either as a spreadsheet of daily and weekly rows, or as the
decoded activities of a C1B/DDD/V1B card file, which are first turned into
such rows. The model covers:

- the spreadsheet side of `lib/analyse-infractions.ts`:
  - reading "H:MM" cells (`tempsVersMinutes`, `minutesVersHeures`);
  - classifying rows by their Date label (`identifierTypeLigne`);
  - building the analysed days and weeks (`extraireDonneesAnalyse`);
  - the rule engine (`detecterInfractions`);
  - the compliance score (`calculerScoreConformite`);
- the conversion of card activities into rows (`lib/c1b-transformer.ts`);
- the year correction of day and infraction lists (`lib/date-corrections.ts`);
- the rule table and record types of `types/index.ts`;
- the French date-label parser and the gravity-to-severity mapping of
  `app/upload/page.tsx`;
- the 12-month driver score of `app/api/delete-analysis/route.ts`.

Representation choices:

- **Durations.** Durations are whole minutes. Hours are exact hundredths of an
  hour (`Conversions.CentiHours`), the value `minutesVersHeures` rounds to. Every
  comparison with a tolerance of 0.01 h is then an integer comparison, and
  `RuleEngine.DailyRulesInMinutes` and its neighbours restate those comparisons
  as minute bounds.
- **Dates.** Dates are proleptic Gregorian calendar days (`Calendar.Date`),
  numbered from 1970-01-01 (`Calendar.DayNumber`).
- **Day keys.** A day key is a `Date`. The time-zone bucketing of activities
  (`extractLocalDate`) is a parameter `localDate: int -> Date` of the
  conversion.
- **Week keys.** Week keys are real strings, so their string order is modelled
  exactly (`Text.StrLe`, code-unit order, which is what `localeCompare` gives
  on strings of digits, `-` and `W`).
- **Imperative code.** The imperative parts are methods with loops, each
  proved equal to a specification function whose properties are lemmas:
  - `detecterInfractions` (`RuleEngine.DetectInfractions`);
  - `extraireDonneesAnalyse` (`Extractor.ExtractAnalysisData`);
  - `convertC1BToLigneRaw` (`C1BTransformer.Convert`);
  - the two year corrections (`DateCorrections.CorrectDayYears`,
    `DateCorrections.CorrectInfractionYears`);
  - `calculateScore` (`DriverScore.CalculateScore`).

Three discrepancies between what the code does and what it evidently means
are stated under "## Findings", each with the behaviour as written and a
corrected version with its property proved.

## Model

Functions that only compute (`TimeToMinutes`, `ParseInt`, `FormatHHMM`,
`FormatDateFr`, `IsoWeekYear`, `WeekKey`, `WeekLabel`, `IsC1BFile`,
`IsTotalLine`, `HasWeekdayAbbreviation`, `AddActivity`, `SortedDays`,
`SortedWeeks`, `C1BRows`, `TotalPenalty`, `Rollover`, `Adjust`,
`ParseFrenchDate`) carry no contract of their own: the rows below name the
lemmas and methods that state what they compute, and each such row names the
function it is about.

| member | source | states |
|---|---|---|
| Types.FindIn | types/index.ts:62-119 | `find` on a rule list returns the first rule with the code, and `None` exactly when no rule has it |
| Types.FindRule | types/index.ts:62-119 | looking a code up in `REGLES_INFRACTIONS` returns a rule of the table with that code, `None` exactly when the code is absent |
| Types.RuleCodesDistinct | types/index.ts:62-119 | no two rules of the table share a code |
| Types.DefaultGravities | types/index.ts:68-117 | every rule's `gravite_defaut` is the 4th class |
| Types.FindRuleOfCode | types/index.ts:62-119 | every code of the table finds its own rule |
| Types.RuleCodes | types/index.ts:62-119 | the seven rules sit in the table in the order COND_JOUR_9H, COND_JOUR_10H_FREQ, REPOS_JOUR_11H, AMPLITUDE_12H, COND_HEBDO_56H, REPOS_HEBDO_45H, COND_2SEM_90H |
| Types.LookedUpRulesPresent | lib/analyse-infractions.ts:129-342 | each of the seven codes the rule engine looks up is found, so none of its `if (!regle) continue` exits is taken |
| Classifier.EnumerationsComplete | types/index.ts:5-41 | `GraviteInfraction` has exactly four values and `TypeLigne` exactly five |
| Text.LowerEach | lib/analyse-infractions.ts:88-89 | the case-insensitive weekday expression compares each character lower-cased on its own, the length kept |
| Text.ToLowerCase | lib/analyse-infractions.ts:79 | `toLowerCase` is one code unit longer per dotted capital I, which becomes "i" and a combining dot, and otherwise lower-cases character by character with the length kept |
| Text.ToLowerCaseConcat | lib/c1b-transformer.ts:257 | `toLowerCase` of two joined strings is the join of their lower cases |
| Text.ToLowerCaseDottedI | lib/c1b-transformer.ts:257 | "İ.ddd" lower-cases to "i", a combining dot and ".ddd", one code unit longer, so the dot moves from index 1 to index 2 |
| Text.TrimStart | lib/analyse-infractions.ts:33 | the start of `trim`: a suffix of the input that does not begin with white space |
| Text.TrimEnd | lib/analyse-infractions.ts:33 | the end of `trim`: a prefix of the input that does not end with white space |
| Text.TrimAround | lib/analyse-infractions.ts:33-36 | `trim` of two parts around a colon removes white space only at the outer ends, so `split(':')` gives the first part trimmed at its start and the second at its end |
| Text.Split | lib/analyse-infractions.ts:36 | `split(':')` always gives at least one part |
| Text.SplitTwo | lib/analyse-infractions.ts:36 | a string with exactly one separator splits into the text before and after it |
| Text.ParseIntDigits | lib/analyse-infractions.ts:39-40 | `ParseInt` (`parseInt(s, 10)`) of a non-empty string of digits is its decimal value |
| Text.ParseIntPadded | lib/analyse-infractions.ts:39-40 | `parseInt` reads back any zero-padded decimal rendering of a natural number |
| Text.ParseIntTrimStart | lib/analyse-infractions.ts:39-40 | `parseInt` gives the same result with or without the leading white space it skips |
| Text.ParseIntPrefix | lib/analyse-infractions.ts:39-40 | `parseInt` reads a number from a string as soon as it reads one from a prefix of it: trailing text never turns a number into `NaN` |
| Text.NatToString | lib/c1b-transformer.ts:53 | `toString` of a natural number is a non-empty string of digits |
| Text.NatToStringValue | lib/c1b-transformer.ts:53 | the digits of `toString` read back as the number |
| Text.PadStart | lib/c1b-transformer.ts:53 | `padStart(width, '0')` gives at least `width` characters and keeps a string of digits one |
| Text.PaddedValue | lib/c1b-transformer.ts:53 | zero padding never changes the value of a rendered number |
| Text.LastIndex | lib/c1b-transformer.ts:257 | `lastIndexOf` gives the last position of the character, or -1 when it is absent |
| Text.StrLeTotal | lib/c1b-transformer.ts:231-233 | any two keys are comparable by `localeCompare` |
| Text.StrLeTransitive | lib/c1b-transformer.ts:231-233 | the key order is transitive |
| Text.StrLeAntisymmetric | lib/c1b-transformer.ts:231-233 | two keys each before the other are equal |
| Conversions.TimeToMinutesOfDigits | lib/analyse-infractions.ts:30-45 | `TimeToMinutes` of a cell written as digits, a colon and digits is 60 times the hours plus the minutes |
| Conversions.TimeToMinutesNoColon | lib/analyse-infractions.ts:31-34 | `TimeToMinutes` of a cell without a colon, however written, is 0 |
| Conversions.TimeToMinutesNotTwoParts | lib/analyse-infractions.ts:31-37 | `TimeToMinutes` of a cell that does not split into exactly two parts around colons once trimmed is 0 |
| Conversions.TimeToMinutesUnparsable | lib/analyse-infractions.ts:33-43 | `TimeToMinutes` of hours and minutes around one colon is 0 as soon as `parseInt` reads no number from either part, whatever white space surrounds them |
| Conversions.CentiHours | lib/analyse-infractions.ts:52-54 | `minutesVersHeures` is the nearest hundredth of an hour, within a third of a hundredth |
| Conversions.CentiHoursSymmetric | lib/analyse-infractions.ts:52-54 | the rounding is symmetric about zero, as `toFixed` is |
| Conversions.CentiHoursMonotone | lib/analyse-infractions.ts:52-54 | the rounding keeps the order of durations |
| Conversions.HoursThresholdsInMinutes | lib/analyse-infractions.ts:127-330 | each hour comparison of the rule engine, tolerance included, is a comparison of whole minutes (e.g. more than 10.01 h exactly when more than 600 min) |
| Classifier.LineTypeOf | lib/analyse-infractions.ts:76-97 | `identifierTypeLigne` gives a type only to a recognised label (non-empty, not a total line); it is a day exactly when the label is recognised and `HasWeekdayAbbreviation` holds, and a week exactly when it is recognised, has no weekday abbreviation and its `toLowerCase` contains "semaine" |
| Classifier.LineTypeFirstKeyword | lib/analyse-infractions.ts:88-93 | for each of the five types, a label gets that type exactly when it is recognised, mentions that type's keyword and mentions none of the keywords tested before it (weekday, "semaine", "per." or "période", "mois", "trimestre", in that order) |
| Classifier.LineTypeNone | lib/analyse-infractions.ts:76-96 | a label gets no type exactly when it is empty or a total line (`IsTotalLine`), or mentions none of the five keywords |
| Classifier.TotalLinesIgnored | lib/analyse-infractions.ts:82 | `IsTotalLine`: any label whose first six characters lower-case to "total " is ignored, whatever follows |
| Classifier.TotalLabelExample | lib/analyse-infractions.ts:82 | "TOTAL Semaine 40" is ignored, although it names a week |
| Extractor.DayOfRow | lib/analyse-infractions.ts:434-443 | a day row gives a day with its label and distance, and its driving, rest and amplitude read by `tempsVersMinutes` and in hours by `minutesVersHeures` |
| Extractor.WeekOfRow | lib/analyse-infractions.ts:453-461 | a week row gives a week with no days, its driving from the driving cell and its rest from the weekly rest cell |
| Extractor.ViewOf | lib/analyse-infractions.ts:425-433 | a row is read as a day exactly when its label is classified as a day, as a week exactly when it is classified as a week, and is skipped otherwise |
| Extractor.DaysSnoc | lib/analyse-infractions.ts:433-445 | one more row adds its day to the day list exactly when it is a day row |
| Extractor.WeeksSnoc | lib/analyse-infractions.ts:447-465 | a week row opens a new week; a day row joins the last week opened, if any; any other row changes nothing |
| Extractor.LeadingDaysSnoc | lib/analyse-infractions.ts:447-451 | a day row read before any week row joins no week |
| Extractor.DaysPartitioned | lib/analyse-infractions.ts:424-467 | the days before the first week row and the days of each week, in order, are exactly the day list: none lost, none counted twice |
| Extractor.WeeksFollowWeekRows | lib/analyse-infractions.ts:452-465 | there is one week per week row, in input order, and its driving and rest are those of its own row, never sums of its days |
| Extractor.ReadRow | lib/analyse-infractions.ts:425-466 | one pass of the loop adds a day row's day to the day list, opens a new week for a week row, adds a day row's day to the last week opened, and keeps the week index pointing at the current week |
| Extractor.ExtractAnalysisData | lib/analyse-infractions.ts:414-470 | the loop returns the days of the day rows in order and the weeks of the week rows, each with the days read after it and before the next week row |
| Sorting.Filter | lib/analyse-infractions.ts:252-254 | `filter` keeps only elements of the input that satisfy the test, at most as many as it holds, and every element that satisfies it |
| Sorting.FilterSnoc | lib/analyse-infractions.ts:252-254 | filtering a list extended by one element extends the result by that element exactly when it passes |
| Sorting.SortBy | lib/c1b-transformer.ts:176-178 | the sort returns a permutation of its input, in non-decreasing key order |
| Sorting.SortByTwo | lib/date-corrections.ts:48-52 | sorting two elements swaps them exactly when the second has the smaller key |
| Sorting.SortByStable | lib/analyse-infractions.ts:261 | the sort is stable: elements with equal keys keep their relative order |
| Counting.CountIfPermutation | lib/analyse-infractions.ts:384-396 | a count over a list does not depend on the order of the list |
| Counting.SumOfPermutation | lib/c1b-transformer.ts:206-227 | a sum over a list does not depend on the order of the list |
| RuleEngine.Raise | lib/analyse-infractions.ts:129-146 | an infraction cites the rule's code and article, the date, the observed value, the limit and a 4th or 5th class gravity with that class's fines |
| RuleEngine.DailyDrivingCheck | lib/analyse-infractions.ts:127-147 | a day raises at most one daily driving infraction |
| RuleEngine.DailyRestCheck | lib/analyse-infractions.ts:150-168 | a day raises at most one daily rest infraction |
| RuleEngine.AmplitudeCheck | lib/analyse-infractions.ts:177-223 | a day raises at most one amplitude infraction |
| RuleEngine.DailyRulesInMinutes | lib/analyse-infractions.ts:127-223 | driving raises an infraction exactly when over 10 h, 5th class exactly when over 11 h; rest raises one exactly when above 0 and under 9 h, 5th class under 6 h; amplitude raises a 4th class one exactly when over 14 h (limit 14), or over 12 h (limit 12) with driving over 10 h or a rest above 0 and under 9 h |
| RuleEngine.DayInfractions | lib/analyse-infractions.ts:126-224 | a day's infractions are well formed and daily |
| RuleEngine.DailyInfractions | lib/analyse-infractions.ts:126-224 | the daily loop's infractions are well formed and daily |
| RuleEngine.WeeklyDrivingCheck | lib/analyse-infractions.ts:229-248 | a week raises at most one weekly driving infraction |
| RuleEngine.WeeklyRestCheck | lib/analyse-infractions.ts:312-330 | a week raises at most one weekly rest infraction |
| RuleEngine.WeeklyRulesInMinutes | lib/analyse-infractions.ts:229-330 | weekly driving raises an infraction exactly when over 56 h, 5th class over 70 h; weekly rest raises one exactly when above 0 and under 45 h, 5th class under 20 h |
| RuleEngine.BandsInMinutes | lib/analyse-infractions.ts:252-254 | a day is in the driving band exactly when it drove more than 9 h and at most 10 h, and has a reduced rest exactly when its rest is at least 9 h and under 11 h |
| RuleEngine.BandFlag | lib/analyse-infractions.ts:264-277 | a band infraction is well formed and weekly |
| RuleEngine.ReducedRestFlag | lib/analyse-infractions.ts:294-307 | a reduced-rest infraction is well formed and weekly |
| RuleEngine.BandFlags | lib/analyse-infractions.ts:264-277 | the band's days from a position on are flagged one each, in order, each citing its rank |
| RuleEngine.ReducedRestFlags | lib/analyse-infractions.ts:294-307 | the reduced rests from a position on are flagged one each, in order, each citing its rank |
| RuleEngine.BandCheck | lib/analyse-infractions.ts:250-279 | the driving-band check's infractions are well formed and weekly |
| RuleEngine.ReducedRestCheck | lib/analyse-infractions.ts:281-309 | the reduced-rest check's infractions are well formed and weekly |
| RuleEngine.BandRanked | lib/analyse-infractions.ts:252-261 | the band's ranking is the week's band days reordered, most driving first, days of equal driving in their week order |
| RuleEngine.BandExemptionCount | lib/analyse-infractions.ts:256-279 | a week with k band days, k above 2, gives exactly k - 2 band infractions, and none otherwise |
| RuleEngine.BandFlagged | lib/analyse-infractions.ts:264-277 | the i-th band infraction is the day of rank i + 3, cites that rank, is 4th class, and drove no more than either exempt day |
| RuleEngine.ReducedRestRanked | lib/analyse-infractions.ts:283-292 | the reduced rests' ranking is the week's reduced rests reordered, shortest first, equal rests in their week order |
| RuleEngine.ReducedRestExemptionCount | lib/analyse-infractions.ts:287-309 | a week with k reduced rests, k above 3, gives exactly k - 3 infractions, and none otherwise |
| RuleEngine.ReducedRestFlagged | lib/analyse-infractions.ts:294-307 | the i-th reduced-rest infraction is the day of rank i + 4, cites that rank, is 4th class, and rested no less than any of the three exempt days |
| RuleEngine.WeekInfractions | lib/analyse-infractions.ts:228-330 | a week's infractions are well formed and weekly |
| RuleEngine.WeeklyInfractions | lib/analyse-infractions.ts:227-331 | the weekly loop's infractions are well formed and weekly |
| RuleEngine.PairCheck | lib/analyse-infractions.ts:335-359 | a pair of weeks raises at most one two-week infraction |
| RuleEngine.TwoWeekInfractions | lib/analyse-infractions.ts:333-360 | the two-week loop's infractions are well formed and two-weekly |
| RuleEngine.HeavyPairsSnoc | lib/analyse-infractions.ts:334-340 | one more week adds at most the pair it closes to the pairs driving over 90 h |
| RuleEngine.TwoWeekCount | lib/analyse-infractions.ts:333-360 | there is exactly one two-week infraction per pair of consecutive weeks driving over 90 h together |
| RuleEngine.TwoWeekCoverage | lib/analyse-infractions.ts:333-360 | every such pair is reported, dated "A + B" with the two weeks' labels and citing their summed driving |
| RuleEngine.TwoWeekSound | lib/analyse-infractions.ts:333-360 | every two-week infraction reports such a pair, and is 5th class exactly when the sum exceeds 112.5 h |
| RuleEngine.ScopesInOrder | lib/analyse-infractions.ts:117-362 | daily, then weekly, then two-week infractions, concatenated, come out ordered by loop |
| RuleEngine.Infractions | lib/analyse-infractions.ts:113-363 | every infraction is well formed, and all daily ones come before all weekly ones, which come before all two-week ones |
| RuleEngine.LookUpRules | lib/analyse-infractions.ts:129-342 | every rule the detection looks up is found in the table |
| RuleEngine.CheckDay | lib/analyse-infractions.ts:127-223 | the body of the daily loop raises the day's infractions and records whether the day has a reduced rest |
| RuleEngine.CheckDailyDriving | lib/analyse-infractions.ts:127-147 | the daily driving check raises the day's driving infraction, if any |
| RuleEngine.CheckDailyRest | lib/analyse-infractions.ts:150-172 | the daily rest check raises the day's rest infraction, if any, and records a rest of 9 h to under 11 h as reduced |
| RuleEngine.CheckAmplitude | lib/analyse-infractions.ts:177-223 | the amplitude check raises the day's amplitude infraction, if any |
| RuleEngine.CheckWeeklyDriving | lib/analyse-infractions.ts:229-248 | the weekly driving check raises the week's driving infraction, if any |
| RuleEngine.CheckWeeklyRest | lib/analyse-infractions.ts:312-330 | the weekly rest check raises the week's rest infraction, if any |
| RuleEngine.CheckBand | lib/analyse-infractions.ts:250-279 | the driving-band check of one week raises the band infractions |
| RuleEngine.FlagBand | lib/analyse-infractions.ts:264-278 | the loop over the band days past the first two flags each of them with its rank |
| RuleEngine.CheckReducedRests | lib/analyse-infractions.ts:281-309 | the reduced-rest check of one week raises the reduced-rest infractions |
| RuleEngine.FlagReducedRests | lib/analyse-infractions.ts:294-308 | the loop over the reduced rests past the first three flags each of them with its rank |
| RuleEngine.CheckWeek | lib/analyse-infractions.ts:228-330 | the body of the weekly loop raises the week's infractions |
| RuleEngine.DetectDaily | lib/analyse-infractions.ts:126-224 | the daily loop raises the daily infractions of the days in order |
| RuleEngine.DetectWeekly | lib/analyse-infractions.ts:227-331 | the weekly loop raises the weekly infractions of the weeks in order |
| RuleEngine.DetectTwoWeek | lib/analyse-infractions.ts:333-360 | the loop over consecutive weeks raises the two-week infractions |
| RuleEngine.DetectInfractions | lib/analyse-infractions.ts:113-363 | `detecterInfractions` returns the daily, then weekly, then two-week infractions |
| Scorer.RoundDiv | lib/analyse-infractions.ts:402 | `Math.round` of a quotient is the nearest integer, halves rounded up |
| Scorer.Clamp | lib/analyse-infractions.ts:402 | the clamp keeps values in 0..100 and changes only those outside |
| Scorer.ComplianceScore | lib/analyse-infractions.ts:376-403 | no days scores 100; otherwise the score lies in 0..100 and is the rounded share of days without a day-dated infraction, in percent, less 5 per délit, 2 per 5th class and 1 per 4th class infraction, clamped |
| Scorer.NoInfractionFullScore | lib/analyse-infractions.ts:376-403 | with no infraction the score is 100 |
| Scorer.ScoreMonotone | lib/analyse-infractions.ts:376-403 | one more infraction never raises the score |
| Scorer.ScoreOrderIndependent | lib/analyse-infractions.ts:376-403 | the score does not depend on the order of the infractions |
| DriverScore.PenaltyOf | app/api/delete-analysis/route.ts:9-14 | a severity costs 1, 2 or 5 points, and 5 exactly when it is neither high nor medium: critical, and also low, since `0 \|\| 5` is 5 |
| DriverScore.CalculateScore | app/api/delete-analysis/route.ts:11-17 | the score is 100 less the total penalty, or 0 when the penalty exceeds 100 |
| DriverScore.TotalPenaltyBounds | app/api/delete-analysis/route.ts:13-15 | `TotalPenalty` charges each infraction between 1 and 5 points |
| DriverScore.ScoreRange | app/api/delete-analysis/route.ts:11-17 | the score lies in 0..100 and is 100 exactly for an empty list |
| DriverScore.ScoreOrderIndependent | app/api/delete-analysis/route.ts:12-16 | the order of the infractions does not change `TotalPenalty` |
| DriverScore.PenaltyGrows | app/api/delete-analysis/route.ts:12-16 | one more infraction adds its penalty to `TotalPenalty`, so never raises the score |
| UploadDates.SeverityOf | app/upload/page.tsx:336 | délit is critical, 5th class high, 4th class medium and 3rd class low, each exactly |
| UploadDates.FirstMatch | app/upload/page.tsx:41 | `match` finds the leftmost position where the expression matches, or none when it matches nowhere |
| UploadDates.FullDateAt | app/upload/page.tsx:41 | the full-date expression matches only strings of its shape: day digits, white space, a month word, an optional dot, white space, four year digits |
| UploadDates.FullDateAtUnique | app/upload/page.tsx:41 | a string of that shape has only one match, so the captures do not depend on how the engine backtracks |
| UploadDates.DayMonthAt | app/upload/page.tsx:52 | the day-and-month expression matches only strings of its shape, and takes the month word whole |
| UploadDates.DayMonthAtGreedy | app/upload/page.tsx:52 | of the possible matches the matcher keeps the day digits and takes the longest month word |
| UploadDates.MonthWordEnds | app/upload/page.tsx:41-52 | on a full date the day-and-month expression captures the same day and month word |
| UploadDates.WeekAt | app/upload/page.tsx:79 | the week expression matches only "Semaine", white space, digits, white space and four year digits |
| UploadDates.WeekAtUnique | app/upload/page.tsx:79 | the week expression's match is unique |
| UploadDates.BiWeekAt | app/upload/page.tsx:91 | the composite expression matches only a week date followed by optional white space and a plus sign |
| UploadDates.MonthKey | app/upload/page.tsx:44 | the month key is a prefix of the word's `toLowerCase` of at most four characters: exactly four, or the whole word when it is shorter, for a word without a dotted capital I |
| UploadDates.MonthWordPlain | app/upload/page.tsx:41-44 | a month word the expressions capture has no dotted capital I, so its `toLowerCase` lower-cases character by character |
| UploadDates.MonthNumber | app/upload/page.tsx:47-56 | a known month key gives its month, an unknown one January |
| UploadDates.MonthWordsExamples | app/upload/page.tsx:44-47 | "Févr" is February and "Avr" April, but "Avril" is January since "avri" is no key |
| UploadDates.MonthCode | app/upload/page.tsx:33-37 | a month's code is two digits |
| UploadDates.MonthCodeValue | app/upload/page.tsx:33-37 | a month's code reads back as its number |
| UploadDates.FullDateTextFormat | app/upload/page.tsx:41-48 | a full date gives `YYYY-MM-DD`: the year digits as written, a month 1 to 12, and the day padded to two digits with its value |
| UploadDates.ExplicitYearWins | app/upload/page.tsx:41-48 | a label with a full date gives the same result whatever the context year, context month and current date |
| UploadDates.RollsOverHalves | app/upload/page.tsx:64-71 | a date without year moves to the next year exactly when the context month is given and is 7 or more and the date's month is 6 or less |
| UploadDates.UploadYearIsCurrent | app/upload/page.tsx:59-71 | called without context, as on upload, a date without year takes the current year with the month code and padded day |
| UploadDates.DayMonthTextFormat | app/upload/page.tsx:51-74 | a date without year gives the year as `toString` writes it, moved on by one when it rolls over, then `-MM-DD` with the label's month and day |
| UploadDates.WeekMondayIsMonday | app/upload/page.tsx:84-87 | the day computed for a week label is a Monday |
| UploadDates.WeekMondaySteps | app/upload/page.tsx:84-87 | week 1's Monday lies in the seven days ending on 4 January, and each later week's Monday is 7 days on |
| UploadDates.WeekLabelDayIsMonday | app/upload/page.tsx:84-88 | a week label gives a Monday, or today when that Monday is out of JavaScript's date range |
| UploadDates.WeekLabelIsMonday | app/upload/page.tsx:78-89 | a label with no day date but a week date is read as that week's Monday |
| UploadDates.WeekWordPresent | app/upload/page.tsx:78-79 | the test for "Semaine" never rejects a label the week expression matches |
| UploadDates.BiWeekImpliesWeek | app/upload/page.tsx:79-100 | whatever the composite expression matches, the week expression matches at the same place with the same captures, so the composite branch is never reached |
| UploadDates.NoDigitFallsBack | app/upload/page.tsx:103-104 | a label without a digit falls back to the current date |
| UploadDates.ParseFrenchDateFormat | app/upload/page.tsx:31-109 | `ParseFrenchDate` of any label, context and current date ends with `-MM-DD` and a month from 01 to 12, in each of its branches |
| Calendar.Weekday | lib/c1b-transformer.ts:60 | `getDay()` lies in 0..6 (0 for Sunday) |
| Calendar.ChronologicalOrder | lib/date-corrections.ts:16 | comparing two dates is comparing their day numbers, and equal dates have equal numbers |
| Calendar.AddDays | lib/c1b-transformer.ts:101 | `setUTCDate(getUTCDate() + k)` moves the day number by exactly k |
| Calendar.ShiftYear | lib/date-corrections.ts:29-30 | `setFullYear(year + k)` moves the year by k and keeps month and day, 29 February becoming 1 March in a common year |
| Calendar.IsoYear | app/upload/page.tsx:104 | `toISOString` writes a year from 0 to 9999 as four digits that read back as the year |
| Calendar.IsoDateString | app/upload/page.tsx:88 | `toISOString().split('T')[0]` ends with `-MM-DD` reading back as the date's month and day, and for a year from 0 to 9999 is ten characters whose first four read back as the year |
| C1BFormat.JsRem | lib/c1b-transformer.ts:52 | JavaScript's `%` takes the sign of the dividend |
| C1BFormat.FormatHHMMRoundTrip | lib/c1b-transformer.ts:50-54 | `tempsVersMinutes` reads back every non-negative duration `FormatHHMM` (`formatMinutesToHHMM`) writes |
| C1BFormat.NegativeDurationExample | lib/c1b-transformer.ts:50-54 | `FormatHHMM` of a negative duration does not read back: -30 minutes is written "-1:-30" |
| C1BFormat.DateFromKey | lib/c1b-transformer.ts:90-93 | `dateFromKey` keeps the key's date, except that a year from 0 to 99 becomes 1900 to 1999 |
| C1BFormat.IsoWeekday | lib/c1b-transformer.ts:100 | `getUTCDay() \|\| 7` numbers the days 1 (Monday) to 7 (Sunday) |
| C1BFormat.IsoThursday | lib/c1b-transformer.ts:101 | the reference day is the Thursday of the day's Monday-to-Sunday week |
| C1BFormat.IsoThursdayIsThursday | lib/c1b-transformer.ts:98-114 | the reference day of `IsoWeekYear` and `IsoWeekNumber` is a Thursday, as the ISO 8601 week rule requires |
| C1BFormat.IsoWeekNumber | lib/c1b-transformer.ts:98-106 | the ISO week number lies in 1..53 |
| C1BFormat.SameWeekSameThursday | lib/c1b-transformer.ts:98-114 | days of one Monday-to-Sunday week have the same ISO week and `IsoWeekYear` |
| C1BFormat.IsoWeekMonotone | lib/c1b-transformer.ts:98-114 | a later day never has an earlier ISO week: `IsoWeekYear` first, then the week number |
| C1BFormat.WeekKeyInjective | lib/c1b-transformer.ts:211 | two weeks share the `WeekKey` `${weekYear}-W${weekNum}` only when they have the same year and number |
| C1BFormat.Extension | lib/c1b-transformer.ts:257 | `fileName.toLowerCase().slice(fileName.lastIndexOf('.'))`: the lower-cased name cut at the index of the last dot in the original name; without a dot, at most one character |
| C1BFormat.IsC1BFileSuffix | lib/c1b-transformer.ts:256-259 | `IsC1BFile` holds exactly when the name ends with a dot and "c1b", "ddd" or "v1b" in any case, and has no dotted capital I before that dot |
| C1BFormat.IsC1BFileOnlyIf | lib/c1b-transformer.ts:256-259 | `IsC1BFile`: a C1B file name ends with a dot and one of the three extensions, with no dotted capital I before that dot |
| C1BFormat.IsC1BFileIf | lib/c1b-transformer.ts:256-259 | `IsC1BFile`: a name ending with a dot and one of the three extensions, with no dotted capital I before that dot, is a C1B file |
| C1BFormat.DottedINameRefused | lib/c1b-transformer.ts:256-259 | "İ.ddd" is not a C1B file: its lower case is one code unit longer, so the cut at index 1 gives a four-character text that does not start with a dot |
| C1BDays.GroupByDay | lib/c1b-transformer.ts:141-173 | the loop fills `dayMap` with one record per day key of an activity start, each equal to the day's record built from all the activities |
| C1BDays.DayOfAbsent | lib/c1b-transformer.ts:148-157 | a day no activity falls on keeps its starting record |
| C1BDays.DayTotals | lib/c1b-transformer.ts:161-165 | a day's record, built by `AddActivity` from its activities, has as driving the sum of the durations of its DRIVING activities and as rest that of its REST activities; other kinds add to neither |
| C1BDays.DayWorkFlag | lib/c1b-transformer.ts:167-172 | `AddActivity` marks the day as having a work activity, and sets an earliest start, exactly when one of its activities is not a rest |
| C1BDays.EarliestWorkStart | lib/c1b-transformer.ts:170 | the earliest start is the start of one of the day's non-rest activities and no later than any of them |
| C1BDays.LatestWorkEnd | lib/c1b-transformer.ts:171 | the latest end is no earlier than the end of any of the day's non-rest activities, and is one of them or the initial 0 |
| C1BDays.DayKeysOfActivities | lib/c1b-transformer.ts:143-159 | every activity's day is a key, every key is some activity's day, and no key appears twice |
| C1BDays.DayValues | lib/c1b-transformer.ts:176 | `dayMap.values()` lists each key's record in insertion order |
| C1BDays.SortedDaysChronological | lib/c1b-transformer.ts:175-178 | `SortedDays` holds the map's records, each once, strictly in calendar order |
| C1BDays.RoundMinutes | lib/c1b-transformer.ts:185 | `Math.round(ms / 60000)` is the nearest whole minute, halves rounded up |
| C1BDays.DailyRow | lib/c1b-transformer.ts:188-195 | a day row has distance 0 and an empty weekly rest cell |
| C1BDays.DailyRows | lib/c1b-transformer.ts:181-196 | one row per sorted day, in order |
| C1BDays.DayAmplitudeWithoutWork | lib/c1b-transformer.ts:184-186 | a day without a non-rest activity has amplitude 0 |
| C1BDays.DayAmplitudeWithWork | lib/c1b-transformer.ts:167-186 | otherwise the amplitude is the rounded minutes from the earliest start of its non-rest activities to their latest end |
| C1BWeeks.GroupByWeek | lib/c1b-transformer.ts:199-227 | the loop keys `weekMap` by the ISO weeks of the sorted days, in order of first appearance, each week holding the totals and rows of its days |
| C1BWeeks.GroupDay | lib/c1b-transformer.ts:214-226 | one pass of the loop creates the day's week when absent, then adds the day to it |
| C1BWeeks.WeekOfDay | lib/c1b-transformer.ts:208-211 | the loop computes a day's week from `getISOWeekNumber` and `getISOWeekYear` of `dateFromKey` |
| C1BWeeks.AddToWeek | lib/c1b-transformer.ts:223-226 | the week's totals grow by the day's driving and rest and its row is appended |
| C1BWeeks.GroupStep | lib/c1b-transformer.ts:206-227 | reading one more day changes only its own week |
| C1BWeeks.WeekContents | lib/c1b-transformer.ts:206-227 | a week's driving and rest totals are the sums over its days, its rows are its days' rows in order, and its label is `Semaine n yyyy` |
| C1BWeeks.RowsOfWeekDaily | lib/c1b-transformer.ts:181-227 | the rows of a week are the rows of its days |
| C1BWeeks.WeekOfAbsent | lib/c1b-transformer.ts:214-221 | a week no day has reached is still the new record |
| C1BWeeks.WeekKeysOfDays | lib/c1b-transformer.ts:206-227 | every day's week is a key, every key is some day's week, and no key appears twice |
| C1BWeeks.DaysOfWeekAbsent | lib/c1b-transformer.ts:206-227 | a week no day falls in has no days |
| C1BWeeks.WeekSizes | lib/c1b-transformer.ts:206-227 | the weeks share out the days: their day counts add up to the number of days |
| C1BWeeks.WeekEntries | lib/c1b-transformer.ts:231 | `weekMap.entries()` lists each week's key string and record in insertion order |
| C1BWeeks.InsertEntry | lib/c1b-transformer.ts:231-233 | inserting an entry into a key-sorted list keeps it sorted and adds exactly that entry |
| C1BWeeks.SortEntries | lib/c1b-transformer.ts:231-233 | the weeks are a permutation of the entries, in `localeCompare` order of their keys |
| C1BWeeks.SummaryRow | lib/c1b-transformer.ts:239-246 | a week row has empty daily rest and amplitude cells and distance 0 |
| C1BWeeks.AssembleRows | lib/c1b-transformer.ts:234-248 | the loop pushes, week by week, the week's day rows and then its summary row |
| C1BWeeks.AssembleLength | lib/c1b-transformer.ts:234-248 | the rows number the days of the weeks plus one per week |
| C1BTransformer.Convert | lib/c1b-transformer.ts:133-251 | `convertC1BToLigneRaw` returns no rows for no activities, otherwise the day rows and summary row of each week in sorted order |
| C1BTransformer.DayMapValues | lib/c1b-transformer.ts:176 | `Array.from(dayMap.values())` lists the day records in insertion order |
| C1BTransformer.WeekMapEntries | lib/c1b-transformer.ts:231 | `Array.from(weekMap.entries())` lists the weeks in insertion order with their key strings |
| C1BTransformer.ConvertEmpty | lib/c1b-transformer.ts:136-138 | `C1BRows` is empty exactly when there are no activities |
| C1BTransformer.ConvertRowCount | lib/c1b-transformer.ts:133-251 | `C1BRows` has one row per calendar day with an activity plus one per ISO week of those days |
| C1BTransformer.ConvertWeeks | lib/c1b-transformer.ts:206-248 | each week of the output is an ISO week of the days: its key and label name it, its rows are its days' rows in calendar order, and its totals are the sums of their driving and rest |
| C1BReading.DateLabelIsDay | lib/c1b-transformer.ts:59-65 | every label `FormatDateFr` (`formatDateFr`) writes is classified as a day by `identifierTypeLigne` |
| C1BReading.DateLabelShortRuns | lib/c1b-transformer.ts:59-65 | a `FormatDateFr` label contains no word of five letters or more, so none of the words that mark total lines |
| C1BReading.DateLabelPlain | lib/c1b-transformer.ts:59-65 | a `FormatDateFr` label has no dotted capital I, so `toLowerCase` keeps its length |
| C1BReading.WeekdayLabelIsDay | lib/analyse-infractions.ts:76-89 | a label starting with a weekday abbreviation and a dot, without a long word or a dotted capital I, is a day label: `HasWeekdayAbbreviation` holds and `IsTotalLine` does not |
| C1BReading.WeekLabelIsWeek | lib/c1b-transformer.ts:212 | every `WeekLabel` `Semaine n yyyy` is classified as a week |
| C1BReading.WeekLabelLower | lib/c1b-transformer.ts:212 | a `WeekLabel` lower-cased character by character is "semaine", a space and the week and year digits |
| C1BLayout.ViewsOfAppend | lib/analyse-infractions.ts:424-467 | reading two row lists one after the other reads each in turn |
| C1BLayout.AppendDayViews | lib/analyse-infractions.ts:447-451 | day rows after some rows join the last week, or lie before any week when there is none yet |
| C1BLayout.ViewsOfAssembled | lib/c1b-transformer.ts:235-248 | when every week's rows are read as written, reading the output gives, week by week, the views of its day rows and then its week row |
| C1BLayout.ViewsOfWeekFirst | lib/c1b-transformer.ts:235-248 | in the corrected layout, reading the output gives, week by week, its week row and then the views of its day rows |
| C1BLayout.SortedWeeksNonEmpty | lib/c1b-transformer.ts:136-233 | `SortedWeeks` of any activity holds at least one week |
| C1BLayout.DailyRowsReadAsDays | lib/c1b-transformer.ts:181-196 | every day row the conversion writes is read back as a day |
| C1BLayout.WeekReadAsWritten | lib/c1b-transformer.ts:235-246 | a week's day rows are read as days and its summary row as a week |
| C1BLayout.SortedWeeksReadAsWritten | lib/c1b-transformer.ts:231-248 | every week of `SortedWeeks` is read back with its day rows as days and its summary row as a week |
| C1BLayout.AssembledWeeks | lib/c1b-transformer.ts:235-248 | with each week's days before its summary row, the extraction gives each week the days of the next week, the last week none, and leaves the first week's days before any week |
| C1BLayout.C1BWeeksMisread | lib/c1b-transformer.ts:235-248 | reading the conversion's output back gives one week per output week, each holding the following week's days, the last week none, and the first week's days in no week |
| C1BLayout.WeekFirstWeeks | lib/c1b-transformer.ts:235-248 | with each summary row before its week's days, every week gets its own days and no day lies before the first week |
| C1BLayout.C1BWeekFirstReadBack | lib/c1b-transformer.ts:235-248 | the corrected output reads back with every week holding exactly its own days |
| C1BWeekOrder.WeekKeyNineTen | lib/c1b-transformer.ts:211-233 | "2024-W10" sorts before "2024-W9" under `localeCompare` |
| C1BWeekOrder.WeekKeys2024 | lib/c1b-transformer.ts:211 | `WeekKey` writes the week number without padding: "2024-W9" and "2024-W10" |
| C1BWeekOrder.SortEntriesWeekTenFirst | lib/c1b-transformer.ts:231-233 | weeks 9 and 10 of 2024, inserted in calendar order, come out of the sort as week 10 then week 9 |
| C1BWeekOrder.WeekKeysIncreasing | lib/c1b-transformer.ts:206-227 | when later days never have an earlier week, the weeks are inserted strictly in week order |
| C1BWeekOrder.DayWeekMonotone | lib/c1b-transformer.ts:206-211 | along the sorted days the ISO weeks never go back, for days after the year 99 |
| C1BWeekOrder.WeeksInOrderChronological | lib/c1b-transformer.ts:206-233 | the weeks in insertion order are the same weeks as the sorted ones, strictly in ISO week order |
| DateCorrections.ScanDays | lib/date-corrections.ts:8-38 | the day list's correction keeps the length |
| DateCorrections.CorrectDayYears | lib/date-corrections.ts:5-39 | `corrigerAnneesJournees` returns the list corrected against each record's already-corrected predecessor (an empty list unchanged) |
| DateCorrections.ScanDaysStep | lib/date-corrections.ts:11-36 | reading one more record appends that record, corrected by the adjustment after the test against the corrected previous record |
| DateCorrections.NextAdjustment | lib/date-corrections.ts:16-25 | the adjustment grows by one exactly when `Rollover` holds: the date is before its predecessor, the predecessor is in September or later and the date is in March or earlier |
| DateCorrections.ScanDaysRecords | lib/date-corrections.ts:11-36 | the first record is kept; every other record is `Adjust`ed: it keeps its fields and has its year moved by the adjustment in force at it, when positive |
| DateCorrections.AdjustmentSteps | lib/date-corrections.ts:16-24 | the adjustment never decreases and grows by at most one per record |
| DateCorrections.AdjustmentMonotone | lib/date-corrections.ts:16-24 | the adjustment in force never decreases along the list |
| DateCorrections.ShiftYearMonthIndex | lib/date-corrections.ts:18-22 | moving a date by whole years keeps it on the same side of September |
| DateCorrections.ShiftYearKeepsOrder | lib/date-corrections.ts:28-35 | moving two dates of one year by the same years keeps their order |
| DateCorrections.ScanDaysCountsTurns | lib/date-corrections.ts:11-36 | on a list written with one year, the final adjustment is the number of turns of the year in it |
| DateCorrections.AdjustmentCountsTurns | lib/date-corrections.ts:11-36 | the adjustment in force at each record is the number of turns of the year up to it |
| DateCorrections.CorrectedStep | lib/date-corrections.ts:11-36 | on such a list each corrected date is not before the previous corrected one |
| DateCorrections.ScanDaysRestoresOrder | lib/date-corrections.ts:5-39 | a list written with one year whose only steps back are turns of the year comes out in calendar order, each year moved by the turns before it |
| DateCorrections.ScanInfractions | lib/date-corrections.ts:60-89 | the `map` keeps the length |
| DateCorrections.ScanInfractionList | lib/date-corrections.ts:59-89 | the `map` corrects each record against the uncorrected previous record |
| DateCorrections.ScanInfractionsCountsTurns | lib/date-corrections.ts:59-89 | the `map` counts the turns of the year of the list it is given and moves each record by the turns up to it |
| DateCorrections.SortedScanKeepsDates | lib/date-corrections.ts:59-89 | on a list in date order the `map` finds no turn and changes nothing |
| DateCorrections.CorrectInfractionYears | lib/date-corrections.ts:44-97 | `corrigerAnneesInfractions` returns its input sorted by date, a permutation, with no date changed |
| DateCorrections.CorrectInfractionYearsInOrder | lib/date-corrections.ts:44-97 | the corrected version looks for turns in the order given, then sorts, returning the corrected records in date order |
| DateCorrections.TurnOfYearExample | lib/date-corrections.ts:44-97 | [30 Sept 2024, 6 Jan 2024] comes out as [6 Jan 2024, 30 Sept 2024] as written, and as [30 Sept 2024, 6 Jan 2025] corrected |
| DateCorrections.SortTwo | lib/date-corrections.ts:48-52 | sorting two records of different dates puts the earlier first |

## Left out

- Time zones: `extractLocalDate` (lib/c1b-transformer.ts:71-85) buckets instants by the Europe/Paris day through `Intl`. The model takes that bucketing as the parameter `localDate`.
- DateCorrections.CorrectInfractionYears: `new Date(string)` parsing and `toISOString` are not modelled. The method takes records whose date is already a calendar day, and writes its results back as days, not as `YYYY-MM-DD` strings. Its one caller (app/upload/page.tsx:262) passes the rule engine's infractions, whose `date` is the row label ("Lun. 30 Sept. 2024", "Semaine 40 2024", "A + B"). Parsing such labels with `new Date` is implementation-defined; week labels, bi-week labels and labels with month words such as "Févr." give an `Invalid Date`, the comparator of lib/date-corrections.ts:48-52 then returns NaN, and the sort treats those records as equal to their neighbours. The model does not parse labels. Its "sorted by date" (`SortedBy(result, DateRank)`) and its "no date changed" hold in the program when every label parses to a day. An `Invalid Date` never compares as earlier, so only two parsed labels that the inconsistent sort leaves side by side out of order could have a year changed; which orders the sort then produces is not modelled.
- The UTC offset in `parseFrenchDate`'s week branch (`new Date(year, 0, 4)` in local time, then `toISOString`) is left out. The model computes the Monday as a calendar day; in a time zone east of UTC the source would write the previous day.
- The current date (`new Date()`) is the parameter `today` of `UploadDates.ParseFrenchDate`. That one parameter stands for two readings of the clock: `getFullYear()` in local time for the default year (app/upload/page.tsx:58) and `toISOString()` in UTC for the fallbacks (app/upload/page.tsx:104,107). In the first hour or two of 1 January, Paris time, the two name different years; the model gives both the same day.
- Floating point: hours are exact hundredths of an hour. The float error of summing two weeks' hours before comparing with 90 h is not modelled; the two-week check compares exact sums.
- `heuresVersTemps` (lib/analyse-infractions.ts:61-65) and `calculerStatistiques` (lib/analyse-infractions.ts:482-517) are outside the modelled core. The extraction and the rule engine do not use them.
- Infraction texts: the `detail` strings built with `toFixed` are modelled as a `Detail` value carrying the same numbers, rank and limits, not as rendered text.
- Console logging throughout, including the `nbCorrections` count of `corrigerAnneesInfractions` (lib/date-corrections.ts:91-94), which only feeds a log line.
- The `try`/`catch` of `parseFrenchDate`: the week branch throws when its Monday lies beyond the dates JavaScript represents (`toISOString` raises a `RangeError`, for example for "Semaine 20000000 2024"), and the `catch` then returns today's date, the same result as the final fallback. `UploadDates.WeekLabelDay` models this by returning `today` past `MAX_DAYS`; no other modelled branch throws.
- C1BFormat.IsoWeekNumber: states 1..53 for the Thursday's true year. The program computes `yearStart` with `Date.UTC(getUTCFullYear(), 0, 1)` (lib/c1b-transformer.ts:102), which turns years 0..99 into 1900..1999; for the day keys 0100-01-01..0100-01-03, whose Thursday is 0099-12-31, the program gives week -99085 (key "99-W-99085", label "Semaine -99085 99") where the model gives 53. Day keys are written with four digits, so only these three days are affected.
- C1BDays.DayRank: `SortedDays` orders days by day number, which is the order `localeCompare` gives the `YYYY-MM-DD` keys (lib/c1b-transformer.ts:177) only while every year is written with four digits. Days before year 1000 or after 9999, whose keys would have another width, are not ordered as the program orders them.
- Scorer.ComplianceScore: rounds the exact share 100·conforming/days, where the program rounds the double `(joursConformes / nbJoursTotal) * 100` less the penalties. When the exact share is a half-integer and the double product falls just below it, the model's score is one point higher than the program's (for example 23 conforming days of 40 with no penalty: 58 here, 57 in the program).
- Regular expressions are modelled by deterministic matchers for the three expressions used. Uniqueness lemmas (`UploadDates.FullDateAtUnique`, `UploadDates.WeekAtUnique`) and the greedy lemma (`UploadDates.DayMonthAtGreedy`) show they agree with a backtracking engine.
- Conversions.TimeToMinutesOfDigits: states the reading of digit-only cells; a number read from a part with a sign or trailing text follows `parseInt` in the function itself, and only its zero cases (`TimeToMinutesUnparsable`, `TimeToMinutesNotTwoParts`) have lemmas.
- Text.LowerChar: lower-cases only ASCII and Latin-1 capitals and keeps other letters, which changes no keyword test and no file extension; the dotted capital I, the one letter whose lower case is longer, is modelled by `Text.ToLowerCase`.
- `convertC1BToLigneRaw` takes the activity list of one driver. The surrounding `C1BDriverResult` record and the unused `vehicle_registration` are left out.
- `JourneeAnalysee`, `SemaineAnalysee` and `Infraction` carry exactly the fields the modelled code reads or writes. Database-side identifiers of the UI are left out.

## Findings

| source | as written | input that shows it | evidently intended | confidence | as-written member | corrected member |
|---|---|---|---|---|---|---|
| lib/c1b-transformer.ts:235-248 | each week's day rows are written before its summary row, while the extraction attaches a day row to the week row read before it | any activities spanning two ISO weeks: the first week row collects the second week's days, the last week row none, and the first week's days belong to no week | each week row heads its own days; the fix can equally go in the writer (summary row first) or in the extraction (lib/analyse-infractions.ts:447-463, attaching day rows to the next week row) | not executed | C1BLayout.C1BWeeksMisread | C1BLayout.C1BWeekFirstReadBack |
| lib/c1b-transformer.ts:211-233 | weeks are sorted by the unpadded string key `${weekYear}-W${weekNum}` | weeks 9 and 10 of 2024: "2024-W10" sorts before "2024-W9", so week 10 is written first | weeks in calendar order, which the insertion order already is | not executed | C1BWeekOrder.SortEntriesWeekTenFirst | C1BWeekOrder.WeeksInOrderChronological |
| lib/date-corrections.ts:48-89 | the infractions are sorted by date before the scan for turns of the year, so the scan never sees a date before its predecessor and changes nothing | [30 Sept 2024, 6 Jan 2024]: returned as [6 Jan 2024, 30 Sept 2024] | turns looked for in the order given, giving [30 Sept 2024, 6 Jan 2025] | not executed | DateCorrections.TurnOfYearExample | DateCorrections.CorrectInfractionYearsInOrder |
