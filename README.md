# NextGen AI Quiz: a Dafny model of the quiz core

This project models the single-page quiz application in `app/page.tsx`. A
learner picks a class (1 to 12), then a subject, then a chapter, and sits a
five-question multiple-choice quiz. Each question has its own countdown
and an explanation shown after answering. The score is then submitted.

The project has five modules:

- `Generator` (generator.dfy) models the question generators.
  - `DIFFICULTY_TIME` becomes `TimeBudget`.
  - The arithmetic generator `generateMathMCQ` becomes `GenerateMath`.
  - The template generator `generateGenericMCQ` becomes `GenerateGeneric`.
  - Random numbers are parameters constrained to the ranges the source draws from (`Drawn`, `ValidMathDraws`).
  - The random-comparator shuffle becomes an arbitrary permutation of the four option slots (`IsPermutation`, `Permute`).
- `Syllabus` (syllabus.dfy) models the syllabus table.
  - `SYLLABUS` is a class holding a `map` from class number to its subject menu.
  - Its gap-filling loop is the `FillGaps` method.
  - The subject and chapter lookups of the two selection views become `Subjects` and `Topics`.
- `QuizSource` (quizsource.dfy) models the question source `api.fetchQuestions`.
  - The loop over the difficulty curve is `BuildQuizSet`.
  - `BuildQuizSet` is proved equal to the specification function `QuizSet`.
- `Session` (session.dfy) models the state machine.
  - It has the state, the twelve actions, the initial state and the reducer (`Reduce`).
  - `Dispatchable` gives the conditions under which the views and effects dispatch each action.
  - `Run` folds a trace of actions from a state.
  - The module proves the per-action effects, a reachability invariant for the reducer as written, a stronger session invariant for the corrected reducer, and end-to-end play-throughs.
- `Scenarios` (scenarios.dfy) runs whole sessions on the question sets the source produces, including the replay that exposes the finding below.

Some behaviours of the code differ from what a description of the application would suggest. The model follows the code:

- **Distractors never coincide with each other or with the answer.** Random distractors could be expected to collide sometimes. The offsets the code draws (+1..5, −1..5, +6..10) make all four options distinct, and `GenerateMath` proves `WellFormed`, which includes distinct options.
- **The reducer does not ignore a repeated Answer.** A second answer to the same question might be expected to have no effect. The reducer records it again and scores it again (`RepeatedAnswerScoresTwice`). Only the disabled answer buttons prevent the repeat, and `Dispatchable` models that.
- **SELECT_CLASS, SELECT_SUBJECT and SELECT_TOPIC never check the current status.** Only the views do. `SelectEffects` states the unguarded behaviour.
- **TICK does not clamp at zero.** The timer effect dispatches TIME_UP instead of TICK once the time reaches zero.
- **Answers are not cleared between quizzes.** A repeated answer overwrites the earlier one, and only RESET clears the answers.

## Model

| member | source | states |
|---|---|---|
| Generator.TimeBudget | app/page.tsx:68-72 | Easy, medium and hard questions get 30, 45 and 60 seconds: 30 plus 15 per difficulty rank. |
| Generator.Contains | app/page.tsx:121-125 | The string-inclusion test is true exactly when the pattern occurs at some position of the string. |
| Generator.OperationFor | app/page.tsx:120-133 | Subtraction exactly when the chapter name contains "Subtraction". Otherwise multiplication exactly when it contains "Multiplication" or "Calculus". Addition in every other case. |
| Generator.PermuteKeepsElements | app/page.tsx:82-84 | Shuffling four distinct values by any permutation keeps them distinct and keeps exactly the same values. |
| Generator.IndexOf | app/page.tsx:149 | -1 exactly when the value is absent; otherwise the first index holding the value. |
| Generator.GenerateMath | app/page.tsx:98-153 | A well-formed question (four distinct options, correct index in range). Operands lie in the level's ranges: 1..10 each for easy, 10..50 each for medium, 50..100 and 20..80 for hard. The operation is the one the chapter selects. The explanation carries the same operands and their result. The option at the correct index is that result. Every option is a number, and the options are exactly the answer and its three drawn distractors. |
| Generator.GenerateGeneric | app/page.tsx:155-174 | A well-formed question whose right answer is option 1, the chosen template's answer. The fixed distractors "Unknown Factor", "External Force" and "Null Value" sit in slots 0, 2 and 3. The question text names the subject and the chapter, and the explanation names the right answer. |
| Syllabus.SyllabusTable.constructor | app/page.tsx:30-53 | The table starts as the curated syllabus for classes 1, 9, 10 and 12, with the source's subjects and chapters. |
| Syllabus.SyllabusTable.FillGaps | app/page.tsx:55-60 | Afterwards the table has an entry for every class 1..12 and for every class it had before. Entries that existed are unchanged. Every added entry is the generic syllabus. |
| Syllabus.BuildSyllabus | app/page.tsx:30-60 | The module-level table is the curated syllabus with its gaps filled. |
| Syllabus.FilledSyllabusComplete | app/page.tsx:22-60 | The filled table's keys are exactly 1..12. Classes 1, 9, 10 and 12 keep their curated menus, and all others get the generic menu. Every menu lists distinct subjects, each with at least one chapter. |
| Syllabus.ChaptersOf | app/page.tsx:758 | No chapters exactly when the menu has no entry for the subject; otherwise the chapters of a matching entry. |
| Syllabus.Subjects | app/page.tsx:728 | The subject menu of the selected class; empty when no class is selected or the class has no entry. A subject is listed exactly when the class's menu has an entry for it. |
| Syllabus.Topics | app/page.tsx:758 | The chapter list is empty when no class or no subject is selected, or the class has no entry. The other cases are stated by `TopicsOfListedSubject` and `TopicsOfAbsentSubject`. |
| Syllabus.TopicsOfAbsentSubject | app/page.tsx:758 | A subject not on the class's menu has no chapters. |
| Syllabus.TopicsOfListedSubject | app/page.tsx:727-766 | On a well-formed menu, a subject has chapters exactly when the subject menu lists it, and they are that entry's chapters. |
| QuizSource.CurveNonDecreasing | app/page.tsx:196 | The difficulty curve easy, easy, medium, medium, hard never steps down. |
| QuizSource.QuestionFor | app/page.tsx:199-203 | A well-formed question for the chosen class, subject, topic and level. It is arithmetic exactly when the subject is "Maths"; otherwise option 1 is the right answer. |
| QuizSource.QuizSet | app/page.tsx:195-205 | Exactly five questions, each fitting its slot of the curve. Difficulties never decrease along the set. |
| QuizSource.BuildQuizSet | app/page.tsx:195-205 | The loop over the curve, one generated question pushed per level, yields exactly `QuizSet`. |
| Session.Reduce | app/page.tsx:255-324 | The reducer as written. The score rises by at most one, and only on a correct Answer. Answers change only on Answer or Reset, and questions only on LoadQuestions or Reset. The error page is entered only by navigating to it. |
| Session.ReduceCorrected | app/page.tsx:269-278 | LoadQuestions also starts a fresh attempt: score 0, no answers, no stored result. Apart from those three fields it agrees with `Reduce`, and it agrees with `Reduce` on every other action. |
| Session.NavigateEffect | app/page.tsx:257-258 | Navigation sets the page from any status and changes nothing else. |
| Session.SelectEffects | app/page.tsx:260-267 | Each selection records its value and moves to the next selection step, from any status, changing nothing else. |
| Session.LoadQuestionsEffect | app/page.tsx:269-278 | Loading activates the quiz at question 0, with the first question's time budget (30 to 60 seconds) and the explanation hidden. The score, answers and stored result are kept from before. |
| Session.AnswerEffect | app/page.tsx:283-291 | The choice is recorded for the current question and the explanation is shown. The score rises by one exactly when the choice is the correct index and stays otherwise. Nothing else changes. |
| Session.RepeatedAnswerScoresTwice | app/page.tsx:283-291 | Answering the current question correctly twice adds two to the score. |
| Session.NextEffect | app/page.tsx:293-304 | On the last question Next moves to submission and changes nothing else. Otherwise it advances the index by one, sets that question's time budget and hides the explanation. |
| Session.TickEffect | app/page.tsx:280-281 | A tick takes one second off the clock, without a lower bound, and changes nothing else. |
| Session.TimeUpEffect | app/page.tsx:306-307 | Time-up only shows the explanation: no answer is recorded and the score is unchanged. |
| Session.SubmitSuccessEffect | app/page.tsx:309-310 | Submission success finishes the session and stores the result, changing nothing else. |
| Session.GoBackEffect | app/page.tsx:312-316 | Back goes home from the static pages. From the topic menu it returns to the subject menu and forgets the subject. From the subject menu it goes home and forgets the class. Elsewhere it does nothing. |
| Session.ResetEffect | app/page.tsx:318-319 | Reset returns exactly the initial state. |
| Session.IndexWithinQuestions | app/page.tsx:293-304 | Every action keeps the index at most one past the end of the question list. |
| Session.ActiveIndexInBounds | app/page.tsx:269-304 | While active, the index points at an existing question. Every action except navigating straight into the active page keeps this. |
| Session.InitialSatisfiesInvariant | app/page.tsx:241-253 | The initial state satisfies the session invariant. |
| Session.CorrectedKeepsInvariant | app/page.tsx:255-324 | Every action the application dispatches keeps the session invariant under the corrected reducer. The invariant: the error page is never reached; the index is in range; answers exist only for questions already passed, or for the current one once its explanation shows; score ≤ number of answers; the clock is non-negative; no result is stored during a quiz. |
| Session.InvariantBoundsScore | app/page.tsx:283-291 | Under the invariant, answers exist only for questions of the quiz, and score ≤ number of answers ≤ number of questions. |
| Session.CorrectedRunsKeepInvariant | app/page.tsx:255-324 | Every dispatched run from the initial state, under the corrected reducer, keeps the invariant. The score never exceeds the number of questions, and a session awaiting submission always has the auto-submit due. |
| Session.WrittenKeepsInvariant | app/page.tsx:255-324 | Every action the application dispatches keeps, under the reducer as written, the reachability invariant: the error page is never entered, the index stays within the question list and points at a question while a quiz is active, and the clock is never negative. |
| Session.WrittenRunsKeepInvariant | app/page.tsx:255-324 | Every dispatched run of the reducer as written from the initial state keeps that reachability invariant. |
| Session.SelectAndLoad | app/page.tsx:260-278 | From home, selecting class, subject and topic and loading a set gives an active quiz at question 0. It records the three selections. It keeps the previous score, answers and result as written, and clears them when corrected. |
| Session.AnswerThenNext | app/page.tsx:283-304 | One round (answer, then Next) adds one point exactly for a right answer. It advances to the next question, or moves to submission after the last. |
| Session.PlayRounds | app/page.tsx:283-304 | Playing the remaining questions to the end reaches submission, and the score rises by exactly the number of right choices. |
| Session.AllWrongScenario | app/page.tsx:255-324 | On the reducer as written and on the corrected one: selecting class 9, Maths, Polynomials, answering every question wrongly and completing submission finishes the session with score 0. |
| Scenarios.AllWrongOnQuizSet | app/page.tsx:195-205 | The same all-wrong session on the quiz set the source generates finishes with 0 of 5, on either reducer. |
| Scenarios.FirstQuizThenHome | app/page.tsx:389 | A quiz answered fully correctly, submitted, then left through the footer's Home link, ends at home. It has full score and the submission's result stored. |
| Scenarios.ReplayOnSet | app/page.tsx:269-278 | The replay is a perfect quiz, submission, Home, the same selection and the same perfect quiz again. As written it ends awaiting submission with twice the number of questions as score and the old result stored, so the auto-submit is not due. Corrected, the score is the second quiz's own and the auto-submit is due. |
| Scenarios.ReplayOutcome | app/page.tsx:269-278 | On the English set for class 9, the replay ends at 10 points for 5 questions as written, and 5 points with the auto-submit due when corrected. |
| Scenarios.ReplayAsWritten | app/page.tsx:269-278 | As written, the replay ends with more points than questions and no auto-submit due. |

## Left out

- Session.Reduce: requires `Defined`. LOAD_QUESTIONS with an empty payload and ANSWER with no current question throw a TypeError in the source (they read a field of `undefined`). The model excludes those inputs instead of modelling the exception.
- React rendering, styling, the AdSense units, the static About and Privacy pages and the FAQ text are not modelled; only the dispatches they make are, in `Dispatchable`.
- The timer effect (the one-second interval) and the auto-submit effect are not executed. They appear only as the conditions under which they dispatch TICK or TIME_UP and SUBMIT_SUCCESS (`TimeUpDue`, `AutoSubmitDue`, `Dispatchable`).
- `selectTopic`'s asynchronous sequencing is not modelled. The fetch is modelled by `BuildQuizSet`; the interleaving with other dispatches while the 600 ms timeout is pending is not.
- `dbService.saveScore`, the `setTimeout` latencies and console logging are not modelled, because they are I/O and timing.
- The submitted payload (`{ rank, percentile }`) is carried as an uninspected `Payload` value.
- `Math.random` and `crypto.randomUUID` are not modelled as sources. Their results are parameters: in-range draws, an arbitrary permutation for the shuffle, and the id string. Nothing is claimed about their distribution.
- Generator.GenerateMath: the question and explanation texts are structured (operation, operands, result) rather than formatted strings. Number-to-string formatting and the mis-encoded multiplication sign are not modelled. Options are numbers rather than their decimal strings.
- The `document.title` metadata effect and the exported page metadata are not modelled.
- Syllabus.Subjects: JavaScript object-key lookups would also find inherited prototype keys; the model's lookups see only the listed entries.
- Syllabus.SyllabusTable.FillGaps: the source stores one shared generic-syllabus object under every filled class. The model stores equal values, so aliasing between those entries is not captured.
- JavaScript numbers are doubles. The model uses unbounded integers; every value involved is small.
- Session.Dispatchable: looser than the views in places. It allows navigation to the three footer targets from any status, and a subject or topic not offered by the menus. It also allows GoBack and Reset in every status, although the views offer Back only on the static pages and the two selection menus (app/page.tsx:684-685, 733, 763) and the restart only on the finished page (app/page.tsx:808).

## Findings

| source | as written | input that shows it | evidently intended | confidence | as-written member | corrected member |
|---|---|---|---|---|---|---|
| app/page.tsx:269-278 | LOAD_QUESTIONS replaces the questions, index and timer but keeps `score`, `answers` and `serverResult` from the previous quiz. | Finish a quiz with 5 of 5, press the footer's Home link (app/page.tsx:389, 824; NAVIGATE_PAGE idle), pick class 9, English, "Beehive Ch 1" and answer all correctly again: the score reaches 10 for 5 questions. Because `serverResult` is still set, the auto-submit at app/page.tsx:663 never fires and the session stays in submitting_result. | Loading a new question set starts a fresh attempt: score 0, no answers, no stored result. | medium, not executed | Scenarios.ReplayAsWritten | Session.ReduceCorrected |
