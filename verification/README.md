# MindMeter IQ test — a Dafny model of test assembly, scoring and the client pages

MindMeter is a small IQ-test web application. Its backend (`backend/server_full.py`) does two things:

- It builds a test from a static bank of twenty questions: it picks a question count from the duration class, filters by difficulty and category, falls back to the category filter alone, shuffles, truncates, and strips the answer keys.
- It scores a submitted answer list into a clamped integer IQ.

Its React pages:

- collect the test configuration (`LandingPage.jsx` / `LandingPage.js`);
- walk the user through the questions (`TestPage.jsx`, with a 60-second timer per question, and `TestPage.js`, with free navigation and one countdown for the whole test);
- present the result and request a certificate (`ResultsPage.js` / `ResultsPage.jsx`).

This project models that logic with immutable datatypes and pure functions:

- each page's state is a datatype;
- each click or timer second is a transition;
- each backend endpoint is a function of its inputs.

The database, the random generator, HTTP and the browser are parameters or are left out.

Modules, one per concern:

- `Wrappers`, `Seqs`, `Decimal`, `Text` and `Clock` are shared helpers:
  - `Option` and `Result`;
  - filtering and duplicates;
  - decimal digits;
  - JavaScript whitespace, `trim` and `toLowerCase`;
  - JavaScript's `Math.floor` / `%` minute split.
- `Domain` and `QuestionBank` hold the question and configuration records and the twenty-question bank.
- `TestAssembly` is `POST /test/start`.
- `Scoring` is `POST /test/submit`.
- `AnswerSheet` is the client's answer list with its `-1` sentinel.
- `Landing` is the configuration form. Both landing-page variants carry the same handlers, so it is modelled once.
- `QuestionTimerPage` is `TestPage.jsx`.
- `CountdownPage` is `TestPage.js`.
- `ResultsSummary` is `ResultsPage.js`: the category badge, the messages and the time statistics.
- `ResultsReport` is `ResultsPage.jsx`: the descriptions, the level colours and the legend.
- `Certificate` covers the certificate forms of both results pages.

Three behaviours of `backend/server_full.py` are worth stating up front:

- Too few matching questions does not raise an error. The test is simply shorter, or empty.
- The request carries no age and nothing validates one.
- The IQ is clamped to 80..140 and computed from the percentage of correct answers only.

## Model

| member | source | states |
|---|---|---|
| QuestionBank.BankWellFormed | backend/server_full.py:96-237 | every bank question's answer key is a valid index into its options |
| QuestionBank.BankNoDuplicates | backend/server_full.py:96-237 | no question occurs twice in the bank |
| QuestionBank.BankShape | backend/server_full.py:96-237 | the bank has twenty questions, every difficulty is easy, medium or hard, and both easy and medium occur |
| TestAssembly.QuestionCount | backend/server_full.py:254-258 | the count is 5 exactly for "short", 20 exactly for "long", and 10 for "medium" or any unknown duration |
| TestAssembly.DifficultyFilter | backend/server_full.py:260-267 | a question is kept if and only if it is in the bank, has the requested difficulty and passes the category filter ("all" requested or its category requested); no question gains occurrences |
| TestAssembly.CategoryFilter | backend/server_full.py:269-273 | a question is kept if and only if it is in the bank and passes the category filter, whatever its difficulty |
| TestAssembly.Pool | backend/server_full.py:260-273 | the candidate pool draws only on bank questions that pass the category filter, without adding occurrences |
| TestAssembly.PoolWhenEnoughMatch | backend/server_full.py:260-269 | when enough questions match the difficulty, the pool is exactly those questions |
| TestAssembly.PoolFallback | backend/server_full.py:269-273 | when too few match, the pool is exactly the bank questions of the requested categories, difficulty ignored |
| TestAssembly.FullBankTestIgnoresDifficulty | backend/server_full.py:254-273 | a test needing at least the whole bank from a bank that mixes difficulties always uses the fallback pool |
| TestAssembly.LongTestIgnoresDifficulty | backend/server_full.py:254-273 | on the real bank a "long" test always ignores the requested difficulty |
| TestAssembly.ClientView | backend/server_full.py:280-288 | the client list keeps order and length, gives position `i` the id `str(i)`, and copies text, options and category (the record has no answer key or difficulty) |
| TestAssembly.ClientIdsArePositions | backend/server_full.py:280-288 | every client id parses back to its position, so ids are pairwise distinct |
| TestAssembly.StartTest | backend/server_full.py:252-301 | the test has min(count, pool size) questions drawn from the shuffled pool without extra occurrences, all from the bank and in the requested categories; the response carries the same id, the client view and `duration_minutes` equal to the count |
| TestAssembly.StartTestSound | backend/server_full.py:275-276 | from a bank of distinct well-formed questions, a test never repeats a question and keeps only usable answer keys |
| Decimal.ParseNatToString | backend/server_full.py:282 | the decimal text of a natural number parses back to that number |
| Scoring.CorrectCount | backend/server_full.py:312-314 | the number of correct answers never exceeds the number of answers or of questions |
| Scoring.CorrectCountIsCardinality | backend/server_full.py:312-314 | the recursive count equals the size of the set of positions `i < len(questions)` whose answer equals the stored key |
| Scoring.CountCorrect | backend/server_full.py:310-316 | the scoring loop returns exactly the number of correct positions, at most the number of questions |
| Scoring.AnswersPastEndIgnored | backend/server_full.py:312-313 | answers beyond the last question never change the score |
| Scoring.UnansweredNeverCounts | backend/server_full.py:312-313 | an answer of `-1` never counts as correct against a well-formed question |
| Scoring.Truncate | backend/server_full.py:321 | Python's `int()` of a real rounds toward zero |
| Scoring.Percentage | backend/server_full.py:317 | with no questions the percentage is 0; otherwise it lies in 0..100 |
| Scoring.Iq | backend/server_full.py:319-322 | the IQ always lies in 80..140 |
| Scoring.UnclampedIq | backend/server_full.py:317-321 | before clamping, the IQ is 70 with no questions and otherwise floor((70·total + 60·correct) / total) |
| Scoring.PercentageMonotone | backend/server_full.py:317 | more correct answers never lower the percentage |
| Scoring.IqMonotone | backend/server_full.py:317-322 | more correct answers never lower the IQ for a fixed number of questions |
| Scoring.IqExtremes | backend/server_full.py:317-322 | all answers correct gives 130; none correct gives the floor 80 |
| Scoring.IqAtMost130 | backend/server_full.py:317-322 | the server never reports more than 130, so the upper clamp never applies |
| Scoring.Iq130OnlyWhenPerfect | backend/server_full.py:317-322 | the estimate reaches 130 only when every question is answered correctly |
| Scoring.SubmitTest | backend/server_full.py:303-336 | an unknown test id fails; otherwise the result carries the id, the number of correct positions, the question count and the IQ of that count |
| Scoring.BlankSheetScoresFloor | backend/server_full.py:312-322 | an answer list of only `-1` scores no correct answers and the minimum IQ |
| AnswerSheet.Blank | frontend/src/components/TestPage.jsx:58 | the initial answer list has one `-1` per question |
| AnswerSheet.Record | frontend/src/components/TestPage.jsx:69-71 | recording an answer changes that entry only |
| Landing.Initial | frontend/src/components/LandingPage.jsx:8-10 | the form opens with medium duration, medium difficulty and only "all" selected, which is a valid type list |
| Landing.Toggle | frontend/src/components/LandingPage.jsx:12-27 | toggling "all" gives ["all"]; a type while "all" is selected gives [type]; a selected type is removed, and removing the last one gives ["all"]; an unselected type is appended |
| Landing.TogglePreservesValid | frontend/src/components/LandingPage.js:12-27 | every toggle keeps the type list non-empty, duplicate-free and equal to ["all"] whenever it holds "all" |
| Landing.ToggleTwiceExact | frontend/src/components/LandingPage.jsx:19-23 | adding an unselected type and toggling it again gives back exactly the same list |
| Landing.ToggleTwiceRestoresSet | frontend/src/components/LandingPage.jsx:12-27 | toggling a specific type twice restores the set of selected types |
| Landing.StartConfig | frontend/src/components/LandingPage.js:29-31 | the configuration sent on start carries exactly the form's duration, types and difficulty |
| Landing.StartConfigAlwaysValid | frontend/src/components/LandingPage.jsx:8-31 | from the initial form, any sequence of clicks leads to a valid type list being sent |
| QuestionTimerPage.EffectiveConfig | frontend/src/components/TestPage.jsx:17-21 | a passed configuration is used as is; without one the page uses the landing page's initial configuration |
| QuestionTimerPage.Loaded | frontend/src/components/TestPage.jsx:28-58 | after loading, there is one answer per question and every answer is `-1`; the first question is shown with nothing selected and the timer at 60 |
| QuestionTimerPage.SelectOption | frontend/src/components/TestPage.jsx:186 | clicking an option only highlights it; the answers, question and timer are unchanged |
| QuestionTimerPage.NextQuestion | frontend/src/components/TestPage.jsx:68-80 | the selection or `-1` is written at the current index only; before the last question the index advances by one, the selection clears and the timer restarts; at the last question the full answer list is submitted and the index stays |
| QuestionTimerPage.ManualNext | frontend/src/components/TestPage.jsx:205-206 | the button does nothing exactly when nothing is selected or a submission is in flight |
| QuestionTimerPage.Tick | frontend/src/components/TestPage.jsx:36-50 | above one second the timer counts down; at one second the page acts as "next" with the selection of the render that opened the question, which is none, so `-1` is recorded; the timer restarts at 60 and stays in 1..60 |
| QuestionTimerPage.IntendedTick | frontend/src/components/TestPage.jsx:39-45 | the corrected timer: at one second the page acts exactly as "next", recording the highlighted option or `-1` |
| QuestionTimerPage.TimerCountsDown | frontend/src/components/TestPage.jsx:39-45 | fewer ticks than the time left only count the timer down, submitting nothing |
| QuestionTimerPage.TimeoutActsAsNext | frontend/src/components/TestPage.jsx:36-50 | when a question's time runs out, the page is where "next" with nothing selected would have taken it: `-1` is recorded for that question and the timer is back at 60 |
| QuestionTimerPage.TimeoutDiscardsHighlight | frontend/src/components/TestPage.jsx:36-50 | with an option highlighted, running out of time records `-1` where the "next" button records the option |
| QuestionTimerPage.IntendedTimeoutActsAsNext | frontend/src/components/TestPage.jsx:68-80 | with the corrected timer, the last second leaves the question exactly as "next" would, keeping the highlighted option |
| QuestionTimerPage.AdvanceSubmitsOnceAtEnd | frontend/src/components/TestPage.jsx:68-80 | going through the remaining questions submits exactly once, at the last question, a list with one entry per question |
| CountdownPage.Start | frontend/src/components/TestPage.js:21-34 | without a configuration no test starts; otherwise the answers are all `-1` and the countdown is `duration_minutes * 60` seconds |
| CountdownPage.AnswerSelect | frontend/src/components/TestPage.js:66-71 | choosing an option highlights it and records it at the current question only |
| CountdownPage.Next | frontend/src/components/TestPage.js:73-78 | the index advances only before the last question, and the stored answer of the new question is shown |
| CountdownPage.Previous | frontend/src/components/TestPage.js:80-85 | the index goes back only above 0, and the stored answer of the new question is shown |
| CountdownPage.Tick | frontend/src/components/TestPage.js:44-58 | no tick while loading or at zero; otherwise one second less, submitting exactly at the last second; what it submits is the answer sheet of the render in which the clock last changed, not the one on screen |
| CountdownPage.LastSecondChoiceLost | frontend/src/components/TestPage.js:44-58 | an option chosen after the clock shows 0:01 is missing from the answers the timeout submits |
| CountdownPage.IntendedTick | frontend/src/components/TestPage.js:44-58 | the corrected countdown: the same clock, but the timeout submits the answers on screen |
| CountdownPage.IntendedLastSecondChoiceKept | frontend/src/components/TestPage.js:66-71 | with the corrected countdown, an option chosen in the last second is in the submitted answers |
| CountdownPage.SubmitButton | frontend/src/components/TestPage.js:168-175 | the submit button appears exactly at the last question and submits the answers |
| CountdownPage.Run | frontend/src/components/TestPage.js:66-85 | any sequence of clicks and seconds keeps the index in range and the countdown non-negative |
| CountdownPage.CountdownSubmitsOnce | frontend/src/components/TestPage.js:44-58 | left running, the countdown stops at zero having submitted once (none if it started at zero) |
| CountdownPage.PadTwo | frontend/src/components/TestPage.js:63 | `padStart(2, "0")` leaves two-character text alone and prefixes zeros up to two characters |
| CountdownPage.FormatClock | frontend/src/components/TestPage.js:60-64 | the clock of non-negative seconds ends in a colon and two digits |
| CountdownPage.ParseFormatClock | frontend/src/components/TestPage.js:60-64 | reading the clock text of any non-negative number of seconds gives back that number |
| Clock.JsRemainder | frontend/src/components/TestPage.js:62 | JavaScript's `%` agrees with the mathematical remainder for non-negative operands and takes the dividend's sign otherwise |
| Clock.SplitMinutes | frontend/src/components/ResultsPage.js:115-119 | for non-negative seconds, minutes·60 + seconds-part gives back the input with the seconds part in 0..59 |
| ResultsSummary.CategoryOf | frontend/src/components/ResultsPage.js:42-50 | the badge shown lies in its band of the 145/130/120/110/90/80 table |
| ResultsSummary.CategoryIsTheBand | frontend/src/components/ResultsPage.js:42-50 | every score lies in exactly one band, the one shown |
| ResultsSummary.CategoryMonotone | frontend/src/components/ResultsPage.js:42-50 | a higher score never shows a lower band |
| ResultsSummary.BadgesDistinct | frontend/src/components/ResultsPage.js:42-50 | different bands have different labels and colours |
| ResultsSummary.PerformanceMessage | frontend/src/components/ResultsPage.js:52-66 | each of the seven messages is shown exactly for its score range, cut at 145/130/120/110/90/80 |
| ResultsSummary.MessageMatchesCategory | frontend/src/components/ResultsPage.js:52-66 | the message's thresholds coincide with the badge's: each score gets its band's message |
| ResultsSummary.MessageFollowsCategory | frontend/src/components/ResultsPage.js:42-66 | two scores get the same message exactly when they get the same badge |
| ResultsSummary.ServerScoresCategories | frontend/src/components/ResultsPage.js:42-50 | a score computed by the server is never shown as "Genius" or "Below Average", and is shown as "Very Superior" exactly for a perfect sheet |
| ResultsSummary.AverageTime | frontend/src/components/ResultsPage.js:38-40 | the average is the floor of time over questions: avg·total ≤ time < (avg+1)·total; no questions gives no number |
| ResultsSummary.FormatDuration | frontend/src/components/ResultsPage.js:115-119 | the duration text of non-negative seconds has at least four characters and ends in "s" |
| ResultsSummary.ParseFormatDuration | frontend/src/components/ResultsPage.js:115-119 | reading the "Xm Ys" text of non-negative seconds gives back that number |
| ResultsReport.DescriptionLevel | frontend/src/components/ResultsPage.jsx:83-95 | each score gets exactly one of five descriptions, cut at 130/120/110/90 |
| ResultsReport.DescriptionMonotone | frontend/src/components/ResultsPage.jsx:83-95 | a higher score never gets a lower description |
| ResultsReport.PerformanceColor | frontend/src/components/ResultsPage.jsx:66-81 | a missing level gets the neutral gray badge, and the badge is gray exactly when the lower-cased level is "average" or not one the switch knows |
| ResultsReport.ColorIgnoresCase | frontend/src/components/ResultsPage.jsx:66-67 | a level and its lower-case form get the same badge classes |
| ResultsReport.UnknownLevelLooksAverage | frontend/src/components/ResultsPage.jsx:74-79 | a missing level, or one the switch does not know, gets the classes of "average" |
| ResultsReport.LegendMatchesDescription | frontend/src/components/ResultsPage.jsx:339-360 | every score a legend box covers gets that box's description level, so the legend's bounds are the description's thresholds |
| ResultsReport.LegendCoversFrom80 | frontend/src/components/ResultsPage.jsx:339-360 | the legend's boxes do not overlap and cover exactly the scores from 80 up |
| ResultsReport.LegendColorsMatchBadge | frontend/src/components/ResultsPage.jsx:339-360 | a badge showing a legend box's name gets that box's colour family |
| Text.TrimEmptyIffBlank | frontend/src/components/ResultsPage.js:73 | a name trims to nothing exactly when it is all whitespace |
| Text.TrimIdempotent | frontend/src/components/ResultsPage.js:84 | trimming twice is trimming once |
| Text.ToLowerIdempotent | frontend/src/components/ResultsPage.jsx:67 | lower-casing twice is lower-casing once |
| Certificate.CompactRequest | frontend/src/components/ResultsPage.js:73-86 | a blank name sends nothing; otherwise the name is sent trimmed and non-empty, and the email trimmed or null exactly when blank |
| Certificate.CompactRequestNameStable | frontend/src/components/ResultsPage.js:84 | resubmitting the name that was sent sends the same request |
| Certificate.FullRequest | frontend/src/components/ResultsPage.jsx:112-127 | a blank name sends nothing; otherwise name, email and contact are sent as typed |
| Certificate.DownloadDisabled | frontend/src/components/ResultsPage.jsx:464 | the button is disabled exactly while downloading or when the name is blank |
| Certificate.ButtonGuardMatchesHandler | frontend/src/components/ResultsPage.jsx:113-116 | the button is enabled exactly when no download runs and the handler would send a request |
| Certificate.PagesAgreeOnNames | frontend/src/components/ResultsPage.js:73-85 | both pages refuse exactly the blank names and send the same name when it has no surrounding whitespace |
| Certificate.CollapseWhitespace | frontend/src/components/ResultsPage.js:95-98 | the sanitised name contains no whitespace and is no longer than the name |
| Certificate.CollapseKeepsPlainNames | frontend/src/components/ResultsPage.js:97 | a name without whitespace is used unchanged |
| Certificate.CollapseKeepsLetters | frontend/src/components/ResultsPage.js:97 | apart from whitespace and underscores, the sanitised name spells the name, in order |
| Certificate.CollapseSeparatesWords | frontend/src/components/ResultsPage.js:97 | a name without underscores never gives two adjacent underscores |
| Certificate.CollapseRun | frontend/src/components/ResultsPage.js:97 | a whitespace run of any length and kind after a word becomes exactly one underscore, and the rest of the name is handled alike |
| Certificate.CompactFilename | frontend/src/components/ResultsPage.js:95-98 | the file name is `IQ_Certificate_`, the name with each whitespace run turned into one underscore, and `.pdf`; it contains no whitespace |
| Certificate.ReplaceSpaces | frontend/src/components/ResultsPage.jsx:137-140 | each space becomes an underscore; the length and every other character are unchanged |
| Certificate.SanitizersAgreeOnSingleSpaces | frontend/src/components/ResultsPage.jsx:139 | for a name whose only whitespace is single spaces, both pages sanitise it the same way |
| Certificate.FullFilename | frontend/src/components/ResultsPage.jsx:137-140 | the file name is `MindMeter_Certificate_`, then the name with each space turned into an underscore and every other character kept, then `.pdf` |
| Certificate.FilenamesAgreeOnSingleSpaces | frontend/src/components/ResultsPage.jsx:137-140 | for a name whose only whitespace is single spaces, both pages put the same text between their fixed prefix and `.pdf` |

## Left out

- Database access: storing sessions and results, `/stats`, and reading results back. `SubmitTest` takes the stored sessions as a map, and a missing session is its error result.
- The random shuffle: `StartTest` takes any permutation of the pool as a parameter. The fresh test id, a UUID, is also a parameter.
- Certificate PDF rendering (`/certificate/download` in `backend/server_full.py`) is layout in a foreign library.
- `GET /test/result/...`, which `ResultsPage.jsx` requests (line 55), is not served by any of the source files this model covers. So the page's score, performance level and statistics enter the model as inputs.
- Floating point:
  - `Scoring.Iq` computes the percentage in exact reals, so it can differ by one from Python's float result at exact boundaries such as one third.
  - `toFixed` display strings and progress-bar percentages are not modelled.
- React semantics are not modelled: hooks, `setInterval` timing and effect dependencies. Ticks and clicks are discrete transitions.
  - `CountdownPage.Tick` models the one stale value of its interval that matters. The interval is re-created whenever the clock changes, so the `handleSubmit` it calls at the last second sees the answers of the render in which the clock last changed. The page keeps that sheet as `captured`.
  - `QuestionTimerPage.Tick` models the one stale value of its interval that matters: the selection, which is always empty in the render that opened the question. The answers and the index it captures are the current ones, because they change only together with the question.
- HTTP, navigation, toasts, the share button, clipboard and Blob/DOM download plumbing.
  - After a successful download the form resets; that UI effect is not modelled.
- Scoring.TestResult: carries no result `id` (a fresh UUID) and no `timestamp` (the current time), which `submit_test` stores and returns (`backend/server_full.py`:79, 84, 324-336). They come from randomness and the clock.
- `ResultsSummary.AverageTime` takes `time_taken` as an integer input. The server's result carries no such field.
- Text.ToLower: lower-cases ASCII letters only, not the full Unicode case mapping of `toLowerCase`.
- `frontend/src/utils/performance.js`, `HomePage.jsx`, `App.js` and the mongoose schema are outside the core.
  - `App.js` names its results route parameter differently from the one `ResultsPage.jsx` reads. That is a routing bug and is not modelled.
- Percentile, per-category and age-normalised fields that `ResultsPage.js` only displays are left out. The code computing them is not part of this model.

## Findings

| source | as written | input that shows it | evidently intended | confidence | as-written member | corrected member |
|---|---|---|---|---|---|---|
| frontend/src/components/TestPage.jsx:36-50 | the interval is re-created only when the question changes, so at timeout it calls the `handleNextQuestion` of the render that opened the question, where `selectedAnswer` is still `null`; `-1` is recorded | an option highlighted when the question's 60 seconds run out | the timeout records the highlighted option, as the "next" button does (lines 68-80) | medium; not executed | QuestionTimerPage.TimeoutDiscardsHighlight | QuestionTimerPage.IntendedTick |
| frontend/src/components/TestPage.js:44-58 | the interval is re-created only when `loading` or `timeRemaining` changes, so at the last second it calls the `handleSubmit` of the render in which the clock last changed, and that closure posts the answers of that render | an option chosen while the clock shows 0:01 | the timeout posts the answers on screen, as the submit button does (lines 87-95) | medium; not executed | CountdownPage.LastSecondChoiceLost | CountdownPage.IntendedTick |

The page model keeps the timer as written (`QuestionTimerPage.Tick`). `QuestionTimerPage.IntendedTick` is the corrected timer. `QuestionTimerPage.IntendedTimeoutActsAsNext` proves that with it the last second acts exactly as "next".

Likewise the countdown page keeps its clock as written (`CountdownPage.Tick`). `CountdownPage.IntendedTick` is the corrected clock, and `CountdownPage.IntendedLastSecondChoiceKept` proves that with it a last-second choice is submitted.
