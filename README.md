# Exam-integrity platform core, modelled in Dafny

This project models the decision logic of an online exam platform. Students take exams in a browser. Teachers design exams and review statistics. Administrators manage users and read reports. Each source file of the core becomes one Dafny module:

- `FraudDetection` (`useFraudDetection.ts`): the student-side integrity monitor. It has two counters: charged violations and seconds spent away from the exam. It also keeps the away marker and the help-panel suppression flag. It classifies browser signals and runs the developer-tools latch. It is a class `Monitor` whose event methods are proved against the functions `Attempt`, `UserReturn`, `Dispatch` and `Poll`.
- `GlobalKeyGuard` (`useGlobalFraudKeyDetection.ts`): the forbidden-key-combination table and the capture-phase listener that enforces it.
- `ReflectionModal` (`fraud-reflection-modal.tsx`): the 30-second countdown that gates dismissal of the reflection dialog. `Countdown` holds the one-second tick it shares with the exam page's evaluate cooldown.
- `SecurityMeasures` (`useSecurityMeasures.ts`): the editors' key blocking, the multi-line-selection collapse, and the polling check. The poll restores tampered editor content and reports extensions and developer tools.
- `EvaluationPage` (`page.tsx`): the exam page's helpers:
  - the last-call-wins debounce;
  - the progress percentage;
  - question navigation;
  - the answer edit;
  - merging saved answers into the initial list;
  - the status circle of each question;
  - the exam timer;
  - the evaluate cooldown.
- `FraudAlert` (`fraud-alert.tsx`): the violation banner and its minutes/seconds split.
- `AttemptStats` (`AttemptStatsPage.tsx`): the teacher's statistics for one sitting: grade buckets, the pie-chart click filter, totals, the average, chart normalisation and the ranking.
- `Reports` (`admin/reports/actions.ts`): the administrator's reports:
  - per-exam performance, as a grouping loop and a results loop;
  - teacher activity, as a join with a sort;
  - the most difficult questions.
- `Middleware` (`middleware.ts`): the access-routing decision.
- `UserAdmin` (`admin/users/actions.ts`, `UserManagementPanel.tsx`): the merged user list, the user search and the role tables, the full user update and the profile update.
- `QuestionsPanel` (`QuestionsPanel.tsx`): question normalisation, the question-type mapping and deletion.
- `FraudReflection` (`lib/gemini-fraud-reflection.ts`): the severity tier sent with a reflection request.

Browser state held in React state and refs becomes class fields. Interval and timer callbacks become explicit tick and poll methods. Clocks and window sizes become parameters. Query results from the database and the identity provider become input sequences.

Where the design documentation and the code disagree, the model follows the code:
- The away time is not clamped at zero (`FraudDetection.EarlyReturnLowersTimeOutside`).
- There is no "consumed once" flag for signals from embedded frames. The only suppression is the help-panel flag.
- The page-wide key guard opens the violation modal but does not increase the violation counter (`page.tsx:164-167`).
- The listener gate `!submissionId` also treats id 0 as "no submission".
- The developer-tools latch is local to one run of the listener effect. The effect depends on callbacks the page recreates on every render, so each re-render clears the latch (`FraudDetection.RerenderRefires`).
- The debounced counter save is created once, on the first render, when the submission id is still null. Its guard therefore always returns before writing (`EvaluationPage.Session.CounterSaveTimer`).

## Model

| member | source | states |
|---|---|---|
| FraudDetection.LoadInitialData | src/app/student/evaluation/hooks/useFraudDetection.ts:20-33 | outside a browser, or with nothing stored, or with an unparsable item, the counters start at 0/0; a stored, parsed item is used as is |
| FraudDetection.Classify | src/app/student/evaluation/hooks/useFraudDetection.ts:110-168 | focus and visible-again reconcile the away window; a key press is charged iff it is suspicious, with reason "uso de tecla sospechosa: " + key; a resize is charged iff the outer window is smaller than the viewport; hiding the tab, losing focus, copy, paste, drag start, print and share are each charged with their own fixed reason |
| FraudDetection.Attempt | src/app/student/evaluation/hooks/useFraudDetection.ts:70-90 | every attempt records the leave time; with the help panel open nothing else changes; otherwise the counter grows by exactly 1 and the modal opens with the reason and message |
| FraudDetection.AttemptNotice | src/app/student/evaluation/hooks/useFraudDetection.ts:78-89 | the fraud callback fires iff the help panel is closed, with the reason and "Intento de fraude detectado: " + reason |
| FraudDetection.AwaySeconds | src/app/student/evaluation/hooks/useFraudDetection.ts:95 | the whole seconds away, rounded down (floor of the millisecond difference over 1000) |
| FraudDetection.UserReturn | src/app/student/evaluation/hooks/useFraudDetection.ts:93-104 | without a leave time nothing changes; otherwise the away seconds are added to the time outside and the leave time is cleared |
| FraudDetection.ReturnReport | src/app/student/evaluation/hooks/useFraudDetection.ts:100-102 | the time-outside callback fires iff an away window was open, with the new total |
| FraudDetection.LatchStep | src/app/student/evaluation/hooks/useFraudDetection.ts:190-204 | the latch follows the sampled level and fires exactly on a false-to-true change |
| FraudDetection.Poll | src/app/student/evaluation/hooks/useFraudDetection.ts:190-204 | the latch becomes "gap over 160 in width or height"; the developer-tools modal opens only on a rising edge; nothing else changes |
| FraudDetection.Rearm | src/app/student/evaluation/hooks/useFraudDetection.ts:190-191 | a re-render re-runs the effect: the latch is cleared and nothing else changes |
| FraudDetection.RerenderRefires | src/app/student/evaluation/hooks/useFraudDetection.ts:190-224 | with the gap sustained and the modal closed by the student, a further poll keeps it closed, but a re-render followed by a poll re-opens it |
| FraudDetection.FraudAttemptsMonotone | src/app/student/evaluation/hooks/useFraudDetection.ts:70-90 | over any run of events the violation counter never decreases |
| FraudDetection.ClosedPanelChargesEachSignal | src/app/student/evaluation/hooks/useFraudDetection.ts:78-89 | with the help panel closed throughout, the counter grows by exactly the number of charged signals |
| FraudDetection.OpenPanelChargesNothing | src/app/student/evaluation/hooks/useFraudDetection.ts:71-76 | with the help panel open throughout, neither the counter nor the modal changes |
| FraudDetection.InactiveMonitorIgnoresSignals | src/app/student/evaluation/hooks/useFraudDetection.ts:107-108 | without a submission id no listener is installed: signals and polls change nothing |
| FraudDetection.TimeOutsideMonotone | src/app/student/evaluation/hooks/useFraudDetection.ts:93-104 | on a clock that does not go backwards, the time outside never decreases |
| FraudDetection.EarlyReturnLowersTimeOutside | src/app/student/evaluation/hooks/useFraudDetection.ts:95-96 | the time outside is not clamped: a return stamped over a second before the leave lowers it |
| FraudDetection.LatestLeaveCounts | src/app/student/evaluation/hooks/useFraudDetection.ts:73-79 | two attempts before a return: only the latest leave time counts |
| FraudDetection.TabSwitchScenario | src/app/student/evaluation/hooks/useFraudDetection.ts:110-116 | hiding the tab and showing it 12 seconds later charges one violation and adds 12 seconds |
| FraudDetection.LatchFiresOncePerEdge | src/app/student/evaluation/hooks/useFraudDetection.ts:190-204 | within one run of the listener effect, the latch fires exactly once per rising edge and ends on the last sampled level |
| FraudDetection.SustainedGapDoesNotRefire | src/app/student/evaluation/hooks/useFraudDetection.ts:196-200 | within one run of the listener effect, polls that stay over the threshold while the latch is set never fire again |
| FraudDetection.SustainedGapFiresOncePerRender | src/app/student/evaluation/hooks/useFraudDetection.ts:190-224 | every run of the effect starts with a cleared latch, so with the gap sustained the modal is raised once in each run that polls |
| FraudDetection.Monitor.constructor | src/app/student/evaluation/hooks/useFraudDetection.ts:36-48 | a new monitor holds the loaded counters, no leave time, closed modals and a cleared latch |
| FraudDetection.Monitor.RegisterFraudAttempt | src/app/student/evaluation/hooks/useFraudDetection.ts:70-90 | the new state is `Attempt` of the old state, and the notice is `AttemptNotice` |
| FraudDetection.Monitor.RegisterUserReturn | src/app/student/evaluation/hooks/useFraudDetection.ts:93-104 | the new state is `UserReturn` of the old state, and the report is `ReturnReport` |
| FraudDetection.Monitor.HandleSignal | src/app/student/evaluation/hooks/useFraudDetection.ts:106-188 | an active monitor dispatches the classified signal; it prevents the default action exactly for suspicious keys, copy, paste and drag start; the notice is `AttemptNotice` iff the signal is charged, and the time report is `ReturnReport` iff it reconciles; an inactive monitor changes nothing |
| FraudDetection.Monitor.PollDevtools | src/app/student/evaluation/hooks/useFraudDetection.ts:190-204 | the new state is `Poll` of the old state; the poll fires iff active, the gap is over the threshold and the latch was clear |
| FraudDetection.Monitor.Rerender | src/app/student/evaluation/hooks/useFraudDetection.ts:190-191 | on an active monitor the new state is `Rearm` of the old: the latch is cleared |
| FraudDetection.Monitor.SetHelpModalOpen | src/app/student/evaluation/hooks/useFraudDetection.ts:233-235 | only the help-panel flag changes |
| FraudDetection.Monitor.SetFraudModalOpen | src/app/student/evaluation/hooks/useFraudDetection.ts:232 | only the violation modal flag changes |
| FraudDetection.Monitor.SetDevToolsModalOpen | src/app/student/evaluation/hooks/useFraudDetection.ts:237 | only the developer-tools modal flag changes |
| GlobalKeyGuard.Handle | src/app/student/evaluation/hooks/useGlobalFraudKeyDetection.ts:20-25 | default prevented and propagation stopped iff forbidden, and then reported with "Combinación de teclas sospechosa: " + key; no report otherwise |
| GlobalKeyGuard.AltLettersAreAlphabet | src/app/student/evaluation/hooks/useGlobalFraudKeyDetection.ts:10-12 | the Alt letter list, repetitions aside, is exactly the alphabet A to Z |
| GlobalKeyGuard.AltLetterForbidden | src/app/student/evaluation/hooks/useGlobalFraudKeyDetection.ts:10-12 | Alt with any upper-case letter is forbidden |
| GlobalKeyGuard.CtrlShiftGaps | src/app/student/evaluation/hooks/useGlobalFraudKeyDetection.ts:8 | Ctrl+Shift with A, G, H or R, without Alt, is allowed |
| GlobalKeyGuard.FunctionKeysForbidden | src/app/student/evaluation/hooks/useGlobalFraudKeyDetection.ts:13-17 | F1, F11 and F12 are forbidden whatever the modifiers |
| GlobalKeyGuard.NonUpperCharAllowed | src/app/student/evaluation/hooks/useGlobalFraudKeyDetection.ts:8-18 | matching is case-sensitive: a single character that is not an upper-case letter is never forbidden |
| GlobalKeyGuard.CtrlShiftIReported | src/app/student/evaluation/hooks/useGlobalFraudKeyDetection.ts:8 | Ctrl+Shift+I is blocked and reported with its key |
| GlobalKeyGuard.Mount | src/app/student/evaluation/hooks/useGlobalFraudKeyDetection.ts:28 | mounting keeps the existing listeners in order and adds exactly one keydown listener in the capture phase |
| GlobalKeyGuard.Remove | src/app/student/evaluation/hooks/useGlobalFraudKeyDetection.ts:29 | removal drops exactly the listener with the same type, handler and capture flag |
| GlobalKeyGuard.UnmountUndoesMount | src/app/student/evaluation/hooks/useGlobalFraudKeyDetection.ts:27-30 | cleanup uses the same capture flag, so it restores the listeners as they were before mounting |
| Countdown.Step | src/components/ui/fraud-reflection-modal.tsx:36-43 | a tick from a value over 1 decrements it by 1 and keeps running; from 1 or less it sets 0 and stops |
| Countdown.RunFrom | src/components/ui/fraud-reflection-modal.tsx:35-44 | started at n, the countdown shows n - k and runs for k < n ticks, and is (0, stopped) from tick n on |
| ReflectionModal.Modal.constructor | src/components/ui/fraud-reflection-modal.tsx:18-24 | a new modal is closed, shows the default reflection, and holds counter 30 with dismissal disabled |
| ReflectionModal.Modal.SetOpen | src/components/ui/fraud-reflection-modal.tsx:26-49 | opening resets the counter to 30, disables dismissal and starts the timer; closing stops the timer |
| ReflectionModal.Modal.Tick | src/components/ui/fraud-reflection-modal.tsx:35-44 | with the timer running, the counter and the dismissal flag move by `Countdown.Step`; without it nothing changes |
| ReflectionModal.Modal.ReceiveReflection | src/components/ui/fraud-reflection-modal.tsx:31-34 | the generated text replaces the reflection and leaves the counter and the dismissal flag alone |
| ReflectionModal.Modal.RequestClose | src/components/ui/fraud-reflection-modal.tsx:52 | `onClose` is called iff dismissal is enabled |
| ReflectionModal.Modal.ActionEnabled | src/components/ui/fraud-reflection-modal.tsx:78 | the action button is enabled only with the counter at 0 and the timer stopped |
| ReflectionModal.DismissalAfterThirtyTicks | src/components/ui/fraud-reflection-modal.tsx:29-44 | counted from opening, dismissal becomes possible exactly at the 30th tick |
| SecurityMeasures.KeyBlocked | src/app/student/evaluation/hooks/useSecurityMeasures.ts:84-104 | as written: Monaco blocks Ctrl/Meta with codes 67, 86, 88, 65, code 123, and Ctrl/Meta+Shift with 73, 74, 67; text areas block Ctrl/Meta with c, v, x, a, the key 'F12', and Ctrl/Meta+Shift with i, j, c, on lower-cased key names |
| SecurityMeasures.MonacoLetterCode | src/app/student/evaluation/hooks/useSecurityMeasures.ts:84 | Monaco numbers the letters A to Z from 31 to 56 |
| SecurityMeasures.MonacoShortcutsMissed | src/app/student/evaluation/hooks/useSecurityMeasures.ts:86-100 | the Monaco handler as written blocks no letter press and not F12, whatever the modifiers |
| SecurityMeasures.MonacoCopyNotBlocked | src/app/student/evaluation/hooks/useSecurityMeasures.ts:86-92 | Ctrl+C is blocked in a text area but not in the Monaco editor |
| SecurityMeasures.IntendedKeyBlocked | src/app/student/evaluation/hooks/useSecurityMeasures.ts:84-104 | the Monaco handler on Monaco's codes: the same shortcuts, with F12 alone blocked when no Ctrl/Meta is held; text areas as written |
| SecurityMeasures.LetterBlockingAgrees | src/app/student/evaluation/hooks/useSecurityMeasures.ts:84-104 | with the intended Monaco handler, both handlers block the same letter presses, whatever the case and the modifiers |
| SecurityMeasures.F12BlockedEverywhere | src/app/student/evaluation/hooks/useSecurityMeasures.ts:96-103 | with the intended Monaco handler, F12 is blocked by every editor whatever the modifiers |
| SecurityMeasures.TextBlockingIgnoresCase | src/app/student/evaluation/hooks/useSecurityMeasures.ts:165-180 | the text-area handler ignores the case of the key name |
| SecurityMeasures.CollapseSelection | src/app/student/evaluation/hooks/useSecurityMeasures.ts:112-121 | a selection spanning several lines collapses to column 1 of its start line; a one-line selection is left alone |
| SecurityMeasures.SelectionAfterIsSingleLine | src/app/student/evaluation/hooks/useSecurityMeasures.ts:112-121 | the selection in force afterwards is on the start line, and a one-line selection is unchanged |
| SecurityMeasures.CollapseSettles | src/app/student/evaluation/hooks/useSecurityMeasures.ts:115-119 | the collapsed selection does not trigger a second collapse |
| SecurityMeasures.PollEvents | src/app/student/evaluation/hooks/useSecurityMeasures.ts:39-75 | a poll reports an extension iff a marker is present, developer tools iff the height gap is over 200, and manipulation iff the Monaco model differs from the last recorded content; each at most once |
| SecurityMeasures.RestoredModel | src/app/student/evaluation/hooks/useSecurityMeasures.ts:63-74 | a tampered model is set back to the last recorded content; otherwise it is kept; afterwards it is never tampered |
| SecurityMeasures.DevtoolsReportedOnEveryPoll | src/app/student/evaluation/hooks/useSecurityMeasures.ts:51-57 | the developer-tools report is level-triggered: one report per poll over the threshold |
| SecurityMeasures.SustainedDevtoolsReportedEachTime | src/app/student/evaluation/hooks/useSecurityMeasures.ts:51-57 | developer tools left open for n polls are reported n times |
| SecurityMeasures.EditorGuard.constructor | src/app/student/evaluation/hooks/useSecurityMeasures.ts:29 | the recorded last content starts empty |
| SecurityMeasures.EditorGuard.OnDidChangeModelContent | src/app/student/evaluation/hooks/useSecurityMeasures.ts:124-129 | on a Monaco editor with a model, every change records the model's value; afterwards the model counts as untampered |
| SecurityMeasures.EditorGuard.Poll | src/app/student/evaluation/hooks/useSecurityMeasures.ts:36-78 | the events are `PollEvents` and the model becomes `RestoredModel`; a manipulation event always comes with the content restored |
| SecurityMeasures.ObservedEditSurvivesPoll | src/app/student/evaluation/hooks/useSecurityMeasures.ts:124-129 | an edit the change listener has seen is never reported or undone by a poll |
| SecurityMeasures.UneditedContentResetByFirstPoll | src/app/student/evaluation/hooks/useSecurityMeasures.ts:29 | a model that already holds text before any change event is reported and reset to '' by the first poll |
| SecurityMeasures.NoContentCheckOutsideMonaco | src/app/student/evaluation/hooks/useSecurityMeasures.ts:60-62 | text areas and Markdown panes never get a manipulation report or a restore |
| EvaluationPage.DebounceStep | src/app/student/evaluation/page.tsx:13-23 | a call replaces any pending call with one due `wait` later; the clock runs a due call exactly once and clears it |
| EvaluationPage.BurstSchedulesLast | src/app/student/evaluation/page.tsx:13-23 | a burst of calls runs nothing and leaves only the last call scheduled |
| EvaluationPage.RunsSplit | src/app/student/evaluation/page.tsx:13-23 | the runs of two event sequences in a row are the runs of the first and then of the second, from the state the first leaves |
| EvaluationPage.LastCallWins | src/app/student/evaluation/page.tsx:13-23 | after a burst of calls, the clock reaching `wait` past the last call runs exactly the last call's arguments |
| EvaluationPage.ClockRunsAtMostOnce | src/app/student/evaluation/page.tsx:17-21 | the clock alone runs a pending call at most once and runs nothing without one |
| EvaluationPage.Debouncer.constructor | src/app/student/evaluation/page.tsx:11-12 | a new debouncer has nothing pending |
| EvaluationPage.Debouncer.Call | src/app/student/evaluation/page.tsx:15-21 | a call moves the timer by `DebounceStep` |
| EvaluationPage.Debouncer.Advance | src/app/student/evaluation/page.tsx:17-20 | the clock moves the timer by `DebounceStep` and returns what ran |
| EvaluationPage.CounterSave | src/app/student/evaluation/page.tsx:471-472 | the counter write happens iff the captured submission id is present and not 0, for that id and question |
| EvaluationPage.CountAnswered | src/app/student/evaluation/page.tsx:244 | the number of answers with non-blank text, never more than the number of answers |
| EvaluationPage.RoundPercent | src/app/student/evaluation/page.tsx:245 | the integer nearest to 100 x answered / total, halves rounded up |
| EvaluationPage.CalculateProgress | src/app/student/evaluation/page.tsx:242-246 | 0 for no answers, otherwise the rounded percentage of answered questions |
| EvaluationPage.ProgressBounds | src/app/student/evaluation/page.tsx:242-246 | progress lies in [0, 100]; it is 0 with nothing answered and 100 with everything answered |
| EvaluationPage.ProgressMonotone | src/app/student/evaluation/page.tsx:245 | more answered questions never show less progress |
| EvaluationPage.GoToPrevious | src/app/student/evaluation/page.tsx:523-529 | the index moves back by one iff it is above 0 |
| EvaluationPage.GoToNext | src/app/student/evaluation/page.tsx:532-538 | the index moves forward by one iff the exam is loaded and the index is below n - 1 |
| EvaluationPage.GoToQuestion | src/app/student/evaluation/page.tsx:541-546 | the index jumps to the target iff the exam is loaded and the target is in range |
| EvaluationPage.NavigationKeepsIndexInBounds | src/app/student/evaluation/page.tsx:523-546 | every navigation keeps a valid index in [0, n) |
| EvaluationPage.NextThenPrevious | src/app/student/evaluation/page.tsx:523-538 | going forward and then back returns to the same question |
| EvaluationPage.FindSaved | src/app/student/evaluation/page.tsx:375 | the found row belongs to the question; nothing is found iff no row does |
| EvaluationPage.FindSavedIsFirst | src/app/student/evaluation/page.tsx:375 | the first saved row for a question is the one used |
| EvaluationPage.MergeOne | src/app/student/evaluation/page.tsx:369-388 | a question without a saved row gets the empty default; with one, its text (or '') and its score, and it is evaluated iff the score is present |
| EvaluationPage.MergeAnswers | src/app/student/evaluation/page.tsx:358-388 | exactly one answer per question, in question order |
| EvaluationPage.MergedAnswersMatchQuestions | src/app/student/evaluation/page.tsx:369-388 | each merged answer carries its question's id, and is evaluated only with a saved score |
| EvaluationPage.QuestionStatus | src/app/student/evaluation/page.tsx:684-731 | blank gives unanswered; not evaluated gives answered but not evaluated; a score in [4, 5] is correct, in [3, 4) acceptable, any other score needs work |
| EvaluationPage.TimerTick | src/app/student/evaluation/page.tsx:444-463 | remaining time is max(0, end - now), and the page submits iff it is 0 |
| EvaluationPage.AutoSubmitAtEnd | src/app/student/evaluation/page.tsx:450-456 | auto-submission happens exactly from the end time on, and remaining time never grows as time passes |
| EvaluationPage.Session.constructor | src/app/student/evaluation/page.tsx:96-106 | a session holds the given answers, question 0, no cooldown and no result; its debounced counter save is new, idle and captured a null submission id |
| EvaluationPage.Session.HandleAnswerChange | src/app/student/evaluation/page.tsx:504-520 | the current entry gets the new text, is not evaluated and has no score; all other entries are unchanged; when saving is enabled the debounced counter save is called for the question |
| EvaluationPage.Session.CounterSaveTimer | src/app/student/evaluation/page.tsx:471-504 | the timer moves by `DebounceStep`; a call that runs goes through the guard with the captured id, so with the null id no counter write happens |
| EvaluationPage.Session.Previous | src/app/student/evaluation/page.tsx:523-529 | the index moves by `GoToPrevious`; the answers and the cooldown are unchanged |
| EvaluationPage.Session.Next | src/app/student/evaluation/page.tsx:532-538 | the index moves by `GoToNext`; the answers and the cooldown are unchanged |
| EvaluationPage.Session.GoTo | src/app/student/evaluation/page.tsx:541-546 | the index moves by `GoToQuestion`; the answers and the cooldown are unchanged |
| EvaluationPage.Session.EvaluateCurrentAnswer | src/app/student/evaluation/page.tsx:549-681 | the scoring service is called iff there is a submission, the answer is not blank and no cooldown runs; a reply marks the answer evaluated with the reply's grade (none when the reply has no grade), shows the result and starts the 30-second cooldown; a call that throws changes nothing |
| EvaluationPage.Session.CooldownTick | src/app/student/evaluation/page.tsx:664-673 | the cooldown moves by one `Countdown` tick; the answers and the index are unchanged |
| EvaluationPage.EditedAnswerIsNotEvaluated | src/app/student/evaluation/page.tsx:507-512 | right after the edit, the edited answer shows as unanswered or as not yet evaluated |
| EvaluationPage.CooldownLastsThirtyTicks | src/app/student/evaluation/page.tsx:561-673 | after an evaluation, evaluation is refused for 29 ticks, and allowed again, with the interval stopped, from the 30th on |
| FraudAlert.SplitTime | src/app/student/evaluation/components/fraud-alert.tsx:58-62 | 60 x minutes + seconds equals the time, with seconds below 60 |
| FraudAlert.SplitTimeUnique | src/app/student/evaluation/components/fraud-alert.tsx:58-62 | that split is the only pair with seconds below 60 |
| FraudAlert.Render | src/app/student/evaluation/components/fraud-alert.tsx:9-71 | nothing is rendered iff both counters are 0; the violation badge shows iff violations > 0; the separator iff both are > 0; the time badge iff the time is > 0, split into minutes and seconds |
| FraudAlert.EmptyBannerForNonPositiveCounters | src/app/student/evaluation/components/fraud-alert.tsx:9 | only two exact zeros hide the banner: negative counters render an empty banner |
| AttemptStats.BucketOf | src/app/teacher/schedules/components/AttemptStatsPage.tsx:160-166 | every submission satisfies the filter of the bucket it is put in |
| AttemptStats.BucketsPartition | src/app/teacher/schedules/components/AttemptStatsPage.tsx:160-166 | a submission satisfies a bucket's filter iff it is that bucket: the six filters partition the submissions |
| AttemptStats.Filter | src/app/teacher/schedules/components/AttemptStatsPage.tsx:161-166 | a bucket's list holds exactly the submissions passing its filter |
| AttemptStats.BucketCountsAddUp | src/app/teacher/schedules/components/AttemptStatsPage.tsx:160-166 | the six bucket counts add up to the number of submissions |
| AttemptStats.Slices | src/app/teacher/schedules/components/AttemptStatsPage.tsx:160-167 | the slices are the non-empty buckets with their labels and counts, and nothing else |
| AttemptStats.GradeDistribution | src/app/teacher/schedules/components/AttemptStatsPage.tsx:160-167 | a bucket has a slice iff its count is positive, and no slice is empty |
| AttemptStats.LabelInjective | src/app/teacher/schedules/components/AttemptStatsPage.tsx:161-166 | no two buckets share a label |
| AttemptStats.PieClick | src/app/teacher/schedules/components/AttemptStatsPage.tsx:86-108 | a click with an empty name does nothing; any other name opens the list |
| AttemptStats.PieClickMatchesBucket | src/app/teacher/schedules/components/AttemptStatsPage.tsx:92-104 | clicking a slice lists exactly the submissions counted in that bucket |
| AttemptStats.Scored | src/app/teacher/schedules/components/AttemptStatsPage.tsx:122 | the graded submissions, exactly |
| AttemptStats.AverageScore | src/app/teacher/schedules/components/AttemptStatsPage.tsx:122-124 | 0 when nothing is graded; otherwise the average times the number of graded submissions is their score sum |
| AttemptStats.ScoreSumBounds | src/app/teacher/schedules/components/AttemptStatsPage.tsx:123 | with grades on the 0 to 5 scale, the sum lies between 0 and 5 x the number of graded submissions |
| AttemptStats.AverageOnScale | src/app/teacher/schedules/components/AttemptStatsPage.tsx:122-124 | with grades on the 0 to 5 scale, so is the average |
| AttemptStats.MaxOrOne | src/app/teacher/schedules/components/AttemptStatsPage.tsx:138-139 | the maximum is at least 1, bounds every value, and is 1 or one of the values |
| AttemptStats.MaxWithZero | src/app/teacher/schedules/components/AttemptStatsPage.tsx:138-139 | `Math.max(...values, 0)` is at least 0, bounds every value, and is 0 or one of the values |
| AttemptStats.FraudCounts | src/app/teacher/schedules/components/AttemptStatsPage.tsx:138 | the per-submission violation counts, in order |
| AttemptStats.TimesOutside | src/app/teacher/schedules/components/AttemptStatsPage.tsx:139 | the per-submission away times, in order |
| AttemptStats.NormalisedInUnitRange | src/app/teacher/schedules/components/AttemptStatsPage.tsx:147-148 | for non-negative counters the normalised violation and time values lie in [0, 1] |
| AttemptStats.Insert | src/app/teacher/schedules/components/AttemptStatsPage.tsx:152-157 | insertion adds exactly the one submission |
| AttemptStats.InsertOrdered | src/app/teacher/schedules/components/AttemptStatsPage.tsx:153-157 | insertion keeps a ranking ordered |
| AttemptStats.Ranked | src/app/teacher/schedules/components/AttemptStatsPage.tsx:152-157 | the ranking is a permutation of the submissions in ranking order |
| AttemptStats.RankingOrder | src/app/teacher/schedules/components/AttemptStatsPage.tsx:152-157 | graded submissions come before ungraded ones, with grades non-increasing |
| AttemptStats.TotalsPermutationInvariant | src/app/teacher/schedules/components/AttemptStatsPage.tsx:125-126 | the violation and away-time totals do not depend on the order of the submissions |
| AttemptStats.TotalsSplit | src/app/teacher/schedules/components/AttemptStatsPage.tsx:125-126 | the totals of two lists in a row are the sums of their totals |
| AttemptStats.RankCell | src/app/teacher/schedules/components/AttemptStatsPage.tsx:425 | a rank number, its 1-based position, is shown iff the participant is graded |
| AttemptStats.ScoredPrefix | src/app/teacher/schedules/components/AttemptStatsPage.tsx:152-157 | in a ranking the graded participants are exactly the leading ones |
| AttemptStats.NoneScoredAfterNone | src/app/teacher/schedules/components/AttemptStatsPage.tsx:154 | a ranking that starts with an ungraded participant has no graded one |
| AttemptStats.RanksAreConsecutive | src/app/teacher/schedules/components/AttemptStatsPage.tsx:423-425 | the shown ranks are exactly 1 to the number of graded participants |
| Reports.AuthorName | src/app/admin/reports/actions.ts:223 | the name is never empty; it is the trimmed "first last", or 'N/A' when that trims to '' |
| Reports.BlankAuthorIsNA | src/app/admin/reports/actions.ts:223 | a name made only of blanks gives 'N/A' |
| Reports.GroupedWellFormed | src/app/admin/reports/actions.ts:216-230 | the grouping loop keeps the key order in step with the map, each key once |
| Reports.GroupedAt | src/app/admin/reports/actions.ts:216-230 | an exam has an entry iff it has a submission; the entry holds all its scores in order, and the title and author of its first submission |
| Reports.GroupedSpec | src/app/admin/reports/actions.ts:216-230 | the same for all exams at once |
| Reports.GroupByExam | src/app/admin/reports/actions.ts:216-230 | the loop builds the grouped table |
| Reports.PassCount | src/app/admin/reports/actions.ts:240-241 | the number of scores at or over 3.0: never more than the group size, equal to it iff all pass, 0 iff none pass |
| Reports.StatOf | src/app/admin/reports/actions.ts:233-251 | a row carries its exam's id, title and author, its group size, the mean score and the pass percentage, which lies in [0, 100] |
| Reports.PassRateExtremes | src/app/admin/reports/actions.ts:241-246 | the pass rate is 100 iff every score passes and 0 iff none does |
| Reports.BuildRows | src/app/admin/reports/actions.ts:233-251 | the results loop builds one row per non-empty group, in map order |
| Reports.RowsOfNonEmpty | src/app/admin/reports/actions.ts:233-251 | with no empty group, every key gets its row, in order |
| Reports.ExamRowsSpec | src/app/admin/reports/actions.ts:216-251 | one row per exam with a graded submission, each exam once, each row summarising exactly that exam's scores |
| Reports.PerformanceStats | src/app/admin/reports/actions.ts:216-256 | the report is a permutation of the rows, sorted by average score, ascending |
| Reports.PerformanceReportCoverage | src/app/admin/reports/actions.ts:216-256 | the sorted report lists exactly the exams with graded submissions, each summarising its scores |
| Reports.DbUserFor | src/app/admin/reports/actions.ts:59-66 | the found record has the account id; none is found iff no record has it |
| Reports.CountFor | src/app/admin/reports/actions.ts:81 | an author without an entry counts 0; otherwise the count is that of one of its entries |
| Reports.Activities | src/app/admin/reports/actions.ts:72-88 | the rows are exactly those of TEACHER accounts that have a database record |
| Reports.TeacherActivityStats | src/app/admin/reports/actions.ts:72-94 | the list is a permutation of those rows, by exam count, descending |
| Reports.TeacherActivityRows | src/app/admin/reports/actions.ts:72-94 | each listed teacher is a TEACHER account with a record; its id, names (the record's first), email, exam count (0 by default) and evaluation limit come from that account and record |
| Reports.DetailFor | src/app/admin/reports/actions.ts:306-310 | the found detail has the question's id; none is found iff no detail has it |
| Reports.DifficultRow | src/app/admin/reports/actions.ts:309-318 | a missing question gives 'Pregunta no encontrada' and 'Evaluación no encontrada'; a missing average gives 0 |
| Reports.DifficultQuestions | src/app/admin/reports/actions.ts:286-318 | one row per aggregate, in order; no aggregate gives no row |
| Middleware.Decide | src/middleware.ts:11-63 | a signed-out user passes on '/', '/student…' and '/api/webhooks…' and is sent to sign-in elsewhere; a signed-in user is let through or redirected |
| Middleware.RolelessUsers | src/middleware.ts:29-40 | a signed-in user without a staff role is sent to '/inactive' from the staff areas and '/', and passes elsewhere |
| Middleware.InactivePageNeverLoops | src/middleware.ts:32-39 | a user without a staff role on '/inactive' is never redirected |
| Middleware.StaffRootRedirects | src/middleware.ts:45-48 | ADMIN on '/' goes to '/admin', TEACHER to '/teacher' |
| Middleware.AdminAreaIsAdminOnly | src/middleware.ts:51-53 | only a signed-in ADMIN passes an '/admin…' path; a TEACHER is sent to '/teacher' |
| Middleware.TeacherGuardIsUnreachable | src/middleware.ts:58-60 | on a '/teacher…' path, '/inactive' is the answer exactly for role-less users, who were caught by the earlier rule |
| Middleware.StaffAreasNeedStaffRole | src/middleware.ts:29-60 | whoever passes into a staff area is signed in with a staff role |
| Middleware.RedirectsSettle | src/middleware.ts:29-60 | a redirect never points at its own path, and its target is let through |
| UserAdmin.RecordFor | src/app/admin/users/actions.ts:19-23 | the found record has the account id; none is found iff no record has it |
| UserAdmin.Join | src/app/admin/users/actions.ts:26-32 | the record's fields are kept; the e-mail is the first account address, else the record's; each name is the account's if truthy, else the record's; the role is the account's |
| UserAdmin.MergeUsers | src/app/admin/users/actions.ts:21-34 | the list holds exactly the joins of the accounts that have a record |
| UserAdmin.MergeUsersAppend | src/app/admin/users/actions.ts:21-34 | the merge keeps account order |
| UserAdmin.MergeUsersComplete | src/app/admin/users/actions.ts:21-34 | when every account has a record, none is lost |
| UserAdmin.GetUsers | src/app/admin/users/actions.ts:13-44 | without a failure, the merged list and no error; with one, no users, and the error's message or 'No se pudieron cargar los usuarios.' |
| UserAdmin.Search | src/app/admin/users/UserManagementPanel.tsx:17-26 | a user is kept iff the lower-cased term occurs in its lower-cased first name, last name, e-mail or identification |
| UserAdmin.SearchAppend | src/app/admin/users/UserManagementPanel.tsx:19-26 | the search keeps the list's order |
| UserAdmin.SearchIgnoresCase | src/app/admin/users/UserManagementPanel.tsx:17 | two terms that lower-case alike select the same users |
| UserAdmin.SearchTermCaseFolded | src/app/admin/users/UserManagementPanel.tsx:17 | a term finds what its lower-case form finds |
| UserAdmin.EmptySearchKeepsAll | src/app/admin/users/UserManagementPanel.tsx:19-26 | an empty search keeps every user, in order |
| UserAdmin.WithRole | src/app/admin/users/UserManagementPanel.tsx:28-29 | the table holds exactly the users with that role |
| UserAdmin.TablesPartition | src/app/admin/users/UserManagementPanel.tsx:17-29 | a user is in the administrators' (teachers') table iff it matches and is ADMIN (TEACHER); the tables are disjoint and other roles are in neither |
| UserAdmin.TablesCoverStaff | src/app/admin/users/UserManagementPanel.tsx:28-29 | when every user is ADMIN or TEACHER, the two tables together hold them all |
| UserAdmin.BuildUpdateData | src/app/admin/users/actions.ts:95-114 | the four fixed fields are copied; each optional field is present iff it was given, with the given value |
| UserAdmin.Apply | src/app/admin/users/actions.ts:116-119 | the write replaces the given fields and keeps the rest |
| UserAdmin.WriteFailure | src/app/admin/users/actions.ts:122-131 | a duplicate key (P2002) gets its own message; another error its message; a non-error the fallback |
| UserAdmin.UserStore.constructor | src/app/admin/users/actions.ts:84-88 | the store holds the given table |
| UserAdmin.UserStore.UpdateUserFull | src/app/admin/users/actions.ts:84-132 | an unknown id fails with 'Usuario no encontrado' and writes nothing; a successful write applies the payload to that record only; a failed one changes nothing |
| UserAdmin.UserStore.UpdateCurrentUserProfile | src/app/admin/users/actions.ts:140-174 | no user fails with 'Usuario no autenticado.' and an empty field with 'Todos los campos son obligatorios.', both without a write; an account with no record fails without a write; otherwise the trimmed values are written or the failure is mapped |
| UserAdmin.WithProfile | src/app/admin/users/actions.ts:151-158 | only the records of that account change, getting the trimmed names and identification; their id, account, email, area, evaluation limit and key setting are kept |
| UserAdmin.ProfileStoredTrimmed | src/app/admin/users/actions.ts:154-156 | the stored profile values carry no surrounding blanks |
| UserAdmin.BlankFieldStoredEmpty | src/app/admin/users/actions.ts:146-156 | a field of blanks passes the completeness test and is stored as '' |
| QuestionsPanel.NormalizeQuestion | src/app/admin/evaluations/components/QuestionsPanel.tsx:20-28 | a missing text, type or language becomes ''; present ones are kept |
| QuestionsPanel.NormalizeQuestionType | src/app/admin/evaluations/components/QuestionsPanel.tsx:30-33 | CODE iff the lower-cased, trimmed text is 'code'; TEXT otherwise |
| QuestionsPanel.ToDatabaseType | src/app/admin/evaluations/components/QuestionsPanel.tsx:35-37 | the lower-cased type name |
| QuestionsPanel.TypeRoundTrip | src/app/admin/evaluations/components/QuestionsPanel.tsx:30-37 | a type read back from its stored spelling is the same type |
| QuestionsPanel.WithoutQuestion | src/app/admin/evaluations/components/QuestionsPanel.tsx:91 | the list keeps exactly the entries with another id |
| QuestionsPanel.HandleDelete | src/app/admin/evaluations/components/QuestionsPanel.tsx:89-94 | without confirmation the list is unchanged; with it, exactly the entries with that id are removed |
| QuestionsPanel.WithoutQuestionAppend | src/app/admin/evaluations/components/QuestionsPanel.tsx:91 | the remaining entries keep their order |
| QuestionsPanel.DeleteAbsent | src/app/admin/evaluations/components/QuestionsPanel.tsx:91 | deleting an absent id changes nothing |
| QuestionsPanel.DeleteTwice | src/app/admin/evaluations/components/QuestionsPanel.tsx:91 | deleting twice is deleting once |
| FraudReflection.SeverityLevel | src/lib/gemini-fraud-reflection.ts:27 | ALTO iff more than 3 violations, MEDIO iff 2 or 3, BAJO otherwise |
| FraudReflection.Label | src/lib/gemini-fraud-reflection.ts:27 | each tier gets its own label: BAJO iff Low, MEDIO iff Medium, ALTO iff High |
| FraudReflection.SeverityMonotone | src/lib/gemini-fraud-reflection.ts:27 | more violations never lower the tier |

## Left out

- Everything that calls the language-model service. The reflection text, the answer scoring and the rest of `lib/gemini-*.ts` are left out. The scoring service's answer is a parameter of `EvaluationPage.Session.EvaluateCurrentAnswer`. Only the severity tier is modelled.
- `lib/fraud-reflection.ts` is not part of this model. It picks a random entry from a static table.
- Database and identity-provider queries. Their results are input sequences. The outcome of a write is a `WriteOutcome` parameter.
- Local storage. The stored item is an abstract optional value: its raw text and whether it parsed. JSON parsing itself is left out.
- React scheduling. State and refs are updated synchronously, so the lag between a state update and the effect that copies it into a ref is not modelled. Re-renders are explicit `Rerender` events; when React renders is not modelled (the page's clock re-renders it about once a second).
- Listener registration of the monitor and the editor guard. The `navigator.share` override and its restore, title flashing and the toast messages are also left out. For the page-wide guard, the listener list is modelled (`GlobalKeyGuard.Mount`, `GlobalKeyGuard.Remove`).
- Clocks. `toUTC` and `Date.now` are one integer millisecond clock passed as `now`.
- Floating point:
  - Scores and averages are exact reals.
  - `EvaluationPage.RoundPercent`: exact half-up rounding of the exact ratio. `Math.round` on the floating-point ratio may differ at .5 boundaries.
  - `formatDecimal`, `toFixed` and chart display values are not modelled.
- String case. `ToLower` lower-cases the basic Latin and Latin-1 letters only. Other Unicode case mappings are not modelled.
- `Number(id)` parsing in the user actions. Ids are integers in the model.
- `revalidatePath`, `console` logging, `deleteUser`, `updateUserArea` and `getAreas`. They are plain database calls with no logic of their own.
- The Monaco editor options (`updateOptions`), the context-menu and select-start handlers of the text area, and the Markdown overlay. These are configuration and styling only.
- AttemptStats.Ranked: the source's comparator returns 1 for two ungraded entries, so it is not a consistent order. The model is a stable insertion sort. It proves the order the comparator intends (graded first, grades non-increasing), not the engine's exact order among equal entries.
- EvaluationPage.Session.HandleAnswerChange requires a non-empty answer list. The source indexes the list at the current question, which exists once the exam is loaded. The counters the save would send are not modelled, since the save never writes.
- SecurityMeasures.KeyBlocked: Monaco's `KeyCode` numbering is modelled for the letters and F12 only. As written, the Monaco branch matches none of the shortcuts it names (see Findings). Which other keys, if any, carry the codes 65, 67, 73, 74, 86, 88 or 123 depends on the Monaco version and is not modelled.
- UserAdmin.UserStore.UpdateCurrentUserProfile requires that a successful write outcome is only given for an account that has a record, as the database refuses the update otherwise. The database's own message for that refusal is not modelled.
- Reports: the report rows have no pass-count field, because the source keeps that count local. Scores are non-null, as the query guarantees (`sub.score!`).
- These edge cases are modelled as the code behaves, not corrected:
  - the first poll resets a Monaco model that was pre-filled before any change event (`SecurityMeasures.UneditedContentResetByFirstPoll`);
  - a profile field of blanks passes validation and is stored as '' (`UserAdmin.BlankFieldStoredEmpty`);
  - the middleware's '/inactive' and '/teacher' guards cannot fire;
  - a score above 5 shows as "needs work".
- EvaluationPage.Session.EvaluateCurrentAnswer: the call to the scoring service is atomic in the model, so edits made while it is pending are not modelled. In the source the page copies only the answers array, and the answer objects in it are shared (page.tsx:507-510). An edit made during the pending call therefore changes the same object the call captured. The call then marks that edited answer evaluated, with the grade computed for the earlier text, and saves the edited text with that grade (page.tsx:553, 579-591). The result message tests `currentAnswer.evaluated` after it has been set, so it always reads "Respuesta reevaluada" (page.tsx:610, 655). A reply without a grade is stored as no score (`ScoringReply.Replied(None)`). The model keeps it apart from a call that throws (`ScoringReply.CallFailed`), which leaves the answer unchanged.

## Findings

| source | as written | input that shows it | evidently intended | confidence | as-written member | corrected member |
|---|---|---|---|---|---|---|
| src/app/student/evaluation/hooks/useSecurityMeasures.ts:86-100 | the Monaco key handler compares `e.keyCode` with the browser's legacy codes (67, 86, 88, 65, 123, 73, 74), but Monaco reports its own `KeyCode` numbering (letters 31 to 56, F12 70) | Ctrl+C in the Monaco editor: code 33, not blocked | block Ctrl/Meta+C, V, X, A, F12 and Ctrl/Meta+Shift+I, J, C, as the text-area handler does | not executed; follows from Monaco's published `KeyCode` values | SecurityMeasures.MonacoShortcutsMissed | SecurityMeasures.IntendedKeyBlocked |
