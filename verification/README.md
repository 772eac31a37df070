# elearner core, modelled in Dafny

This project models the core of the elearner web app. The app teaches
computer skills through lessons. A lesson is a sequence of steps:

- an **overview** step;
- **interactive** steps, where a simulated Windows 11 desktop or Word window
  reports the learner's clicks to a lesson player;
- a closing **quiz**.

The model covers the following parts of the app, each as one module:

- `LessonPlayer`, with `QuizMachine` for its quiz: the lesson player's state
  machine. This includes its auto-advance and feedback timers, modelled
  without a clock. The quiz handles option selection and "next question",
  and is the one place a lesson reports itself finished.
- `CourseOverview`: the course overview's lock rule, completion count and
  progress percentage.
- `Settings`: the settings store. It merges patches, loads persisted
  settings, and records completed lessons.
- `CourseActions` and `CourseQueries`: the server actions (enrol, mark a
  lesson complete, issue a certificate) and the queries, over a row store.
- `Store`: the row store, whose uniqueness and foreign-key constraints come
  from the database schema.
- `Seed`: the seed script that maps the catalog onto the `courses` and
  `lessons` tables.
- `Catalog` and `Fixture`: the catalog's data model and its contents.
- `Translations`: the translation tables and the `t(key)` lookup, with
  JavaScript's optional chaining and `||` fallback.
- `Auth`: the purchase side of the auth context.
- `Win11`, `WordSimulator` and `Highlight`: the two simulators and the
  glow helper they share.
- `Walkthrough`: how these pieces meet. Click reports drive the player, the
  player's completion signal reaches the settings store, and the overview
  unlocks the next lesson.

Shared pieces:

- `Common` holds `Option` and a few sequence lemmas.
- `Localized` resolves bilingual content the way the components do. A
  bare string is shown as is. An object, arrays included, is resolved as
  `content[lang] || content['en']`, so a bare array of objectives resolves
  to nothing.
- `Common.Keys` is the one projection behind every id list
  (`rows.map(r => r.id)`).
- `Percent` is the one rounding rule behind every percentage:
  `Math.round(k / n * 100)` computed exactly, as the unique `p` with
  `2np <= 200k + n < 2np + 2n`.

Nothing in the model performs I/O. Where the app calls the database, the
identity provider, `uuid`, the clock or `localStorage`, that value is a
parameter, or the effect is returned as data.

## Model

| member | source | states |
|---|---|---|
| Localized.Resolve | src/components/LessonPlayer/LessonPlayer.js:31-36 | a plain string is shown as is; a bilingual text shows French only when French is asked for and non-empty, otherwise English |
| Localized.ResolveOptional | src/components/LessonPlayer/LessonPlayer.js:121 | a missing explanation stays missing; a present one resolves like any text |
| Localized.ResolveList | src/components/LessonPlayer/LessonPlayer.js:204 | a bare array of objectives shows nothing, since an array is an object without `en` or `fr` members; the object form picks the French list for French (even an empty one, since an array is truthy) and the English list otherwise |
| Localized.ObjectivesShownIffBilingual | src/components/LessonPlayer/LessonPlayer.js:31-36 | objectives are shown exactly when the list is in the `{ en, fr }` form and the chosen list is non-empty; a bare array shows the same nothing in every language |
| Localized.EnglishNeverFallsBack | src/components/CourseOverview/CourseOverview.js:12-17 | asking for English always gives the English text |
| Localized.UnknownLanguageIsEnglish | src/components/CourseOverview/CourseOverview.js:14 | a language without a field falls back to English |
| Percent.RoundPercent | src/components/LessonPlayer/LessonPlayer.js:29 | the result is the nearest integer to 100k/n, with halves rounded up, as `Math.round` does |
| Percent.RoundPercentUnique | src/actions/course-actions.js:74-76 | the rounding bounds determine the percentage uniquely |
| Percent.AtMostHundred | src/components/CourseOverview/CourseOverview.js:22 | k of n with k ≤ n never exceeds 100 |
| Percent.FullIsHundred | src/actions/course-actions.js:79 | n of n is exactly 100 |
| Percent.PartialBelowHundred | src/actions/course-actions.js:79 | fewer than n of n stays below 100 when n < 200 |
| Percent.NearlyAllRoundsToHundred | src/actions/course-actions.js:74-79 | 199 of 200 already rounds to 100, so "100%" does not mean "all" for large courses |
| Percent.RoundPercentMonotone | src/components/CourseOverview/CourseOverview.js:22 | completing more never lowers the percentage |
| Percent.HundredIffComplete | src/queries/course-queries.js:82-84 | below 200 lessons, 100% holds exactly when every lesson counts |
| Catalog.TargetOf | src/components/Simulators/Win11/Win11.js:303 | only interactive steps carry a target for the simulators |
| Catalog.CorrectCount | src/data/courses.js:114-145 | the number of options flagged correct, at most the number of options |
| Catalog.SingleCorrectIsPresent | src/data/courses.js:121-142 | a question with exactly one correct option has that option at some index |
| Common.Keys | src/queries/course-queries.js:87 | one key per record, in order: the record at each position gives the key at that position |
| Common.KeysAppend | src/queries/course-queries.js:87 | the keys of a concatenation are the concatenated keys, and every record's key is in the list |
| Fixture.QuestionsHaveOneCorrectOption | src/data/courses.js:114-145 | every quiz question of the catalog has exactly one correct option, and its options have distinct ids |
| Fixture.LessonsWellFormed | src/data/courses.js:16-345 | every lesson of the catalog starts with an overview, and its interactive steps name both an action and a target |
| Fixture.NavigatingDesktopWellFormed | src/data/courses.js:16-147 | the first Windows lesson is well formed: an overview, three click steps and a quiz |
| Fixture.WordGettingStartedWellFormed | src/data/courses.js:200-266 | the first Word lesson is well formed |
| Fixture.WordFormattingWellFormed | src/data/courses.js:267-345 | the Word formatting lesson is well formed |
| Fixture.CatalogWellFormed | src/data/courses.js:1-366 | every course has distinct lesson ids, and its static `isLocked` flags lock every lesson but the first |
| Fixture.LessonIdsGloballyUnique | src/data/courses.js:17-272 | no lesson id is shared between the Windows and the Word course |
| Fixture.PlainObjectiveListsShowNothing | src/data/courses.js:160-186 | the managing-files and customizing-windows overviews list four objectives each as bare arrays, and in either language the overview shows none of them |
| Fixture.PackageCoursesExist | src/data/courses.js:368-378 | every course a package names is in the catalog |
| QuizMachine.SelectOption | src/components/LessonPlayer/LessonPlayer.js:73-86 | once answered, a question ignores clicks; otherwise it records the option and adds a point exactly when the option is correct; the state stays valid |
| QuizMachine.NextQuestion | src/components/LessonPlayer/LessonPlayer.js:88-101 | it moves to the next question with the selection cleared, or on the last question shows results and finishes; the score never changes |
| QuizMachine.Passed | src/components/LessonPlayer/LessonPlayer.js:266 | the quiz is passed exactly when the score reaches half the questions rounded up; an empty quiz is always passed |
| QuizMachine.MarkOf | src/components/LessonPlayer/LessonPlayer.js:317-345 | an option is drawn as chosen exactly when it is the selected one, with the ✓ verdict exactly when the option is correct and ✗ otherwise; an option is revealed as the missed right answer exactly when the question is answered, the option is correct, and it is not the one chosen |
| QuizMachine.CorrectAnswerShownOnceAnswered | src/components/LessonPlayer/LessonPlayer.js:322-335 | after answering, the correct option is visible, whether or not it was chosen |
| QuizMachine.TwoQuestionWalkthrough | src/components/LessonPlayer/LessonPlayer.js:73-101 | two right answers score 2 and one right answer scores 1; both pass, and the second "next" finishes |
| LessonPlayer.InitialValid | src/components/LessonPlayer/LessonPlayer.js:11-26 | the initial state satisfies the player invariant |
| LessonPlayer.Cancel | src/components/LessonPlayer/LessonPlayer.js:105-108 | clearing a timer removes exactly the advances with that id and keeps the rest |
| LessonPlayer.FindAdvance | src/components/LessonPlayer/LessonPlayer.js:133-135 | a pending timer id leads to a scheduled advance with that id |
| LessonPlayer.AutoAdvanceDelay | src/components/LessonPlayer/LessonPlayer.js:128-130 | the delay is the larger of 6000 ms and 80 ms per character of the explanation |
| LessonPlayer.HandleAction | src/components/LessonPlayer/LessonPlayer.js:117-144 | completed lessons and overviews ignore actions; otherwise a match gives success feedback and arms an advance that captures the step and is held by the ref; a mismatch gives "not quite" and schedules one feedback clear; the step never changes |
| LessonPlayer.ClearRef | src/components/LessonPlayer/LessonPlayer.js:105-108 | the ref is emptied and the advance it named is cancelled; nothing else changes |
| LessonPlayer.HandleNext | src/components/LessonPlayer/LessonPlayer.js:103-115 | the feedback is cleared and the ref'd advance cancelled; the step after the captured one is shown, or on the last step the lesson completes |
| LessonPlayer.HandlePrevious | src/components/LessonPlayer/LessonPlayer.js:156-161 | it goes one step back and clears feedback unless on the first step; it does not touch the timers |
| LessonPlayer.HandleRestart | src/components/LessonPlayer/LessonPlayer.js:146-154 | it returns to step 0, not completed, with no feedback; the ref'd advance is cancelled and the quiz is left as it was |
| LessonPlayer.HandleQuizOptionSelect | src/components/LessonPlayer/LessonPlayer.js:73-86 | only the quiz part changes, as QuizMachine.SelectOption says |
| LessonPlayer.HandleNextQuestion | src/components/LessonPlayer/LessonPlayer.js:88-101 | the lesson is reported finished exactly when "next" is clicked on the last question, whatever the score; only the quiz part changes |
| LessonPlayer.FireAdvance | src/components/LessonPlayer/LessonPlayer.js:133-135 | a firing advance leaves the schedule and runs the `handleNext` of the render that armed it, acting on the captured index; an unknown id does nothing |
| LessonPlayer.FireClear | src/components/LessonPlayer/LessonPlayer.js:142 | a scheduled clear empties whatever feedback shows and uses up one clear |
| LessonPlayer.Progress | src/components/LessonPlayer/LessonPlayer.js:29 | the nearest integer to 100 × (steps done, counting the current one once completed) / steps; 0 on the first step before completion |
| LessonPlayer.ProgressBounds | src/components/LessonPlayer/LessonPlayer.js:29 | step progress stays within 100, reaches 100 on completion, and (below 200 steps) only then |
| LessonPlayer.HighlightType | src/components/LessonPlayer/LessonPlayer.js:553 | the ring is "attention" exactly while voice-over is on and no feedback shows, and "action" otherwise |
| LessonPlayer.Offered | src/components/LessonPlayer/LessonPlayer.js:248-253 | an overview offers only "Start Lesson" and pending timers; the simulator and "Previous" exist only on interactive steps, "Previous" only when not completed and not on the first step; quiz buttons only while a question shows |
| LessonPlayer.Apply | src/components/LessonPlayer/LessonPlayer.js:203-554 | an event whose control is not rendered changes nothing; the invariant is kept; a finish signal comes only from "next question" on the last quiz question and leaves the results showing; once the results show, every event keeps them and reports nothing |
| LessonPlayer.Run | src/components/LessonPlayer/LessonPlayer.js:99 | a run keeps the invariant, reports only its own lesson, and reports nothing for a lesson without a quiz |
| LessonPlayer.RunAfterResultsIsSilent | src/components/LessonPlayer/LessonPlayer.js:146-154 | once the results show they stay, because restart keeps the quiz record, so a run from there reports nothing |
| LessonPlayer.FinishedAtMostOnce | src/components/LessonPlayer/LessonPlayer.js:95-101 | any run of a mounted player reports its lesson finished at most once |
| LessonPlayer.NewestAdvanceIsFound | src/components/LessonPlayer/LessonPlayer.js:133-135 | the advance just armed is the one found under the newest id, and it captured the current step |
| LessonPlayer.NextCancelsArmedAdvance | src/components/LessonPlayer/LessonPlayer.js:103-108 | "Next Step" after a success cancels the advance it armed, so that advance's firing does nothing |
| LessonPlayer.PreviousLeavesAdvanceArmed | src/components/LessonPlayer/LessonPlayer.js:156-161 | "Previous" leaves the armed advance pending; when it fires, the learner jumps from the step before to the step after the solved one |
| LessonPlayer.StaleAdvanceCompletesEarly | src/components/LessonPlayer/LessonPlayer.js:110-114 | on the last step the stale advance completes the lesson while the previous step shows, with progress below 100 |
| LessonPlayer.RepeatedSuccessOrphansFirstAdvance | src/components/LessonPlayer/LessonPlayer.js:133 | a second success overwrites the ref, so "Next Step" cancels only the second advance and the first survives |
| CourseOverview.IsLocked | src/components/CourseOverview/CourseOverview.js:90 | the first lesson is never locked; a locked lesson has an unfinished lesson before it, and a lesson whose earlier lessons are all completed is open |
| CourseOverview.IsCompleted | src/components/CourseOverview/CourseOverview.js:88 | a completed lesson makes the completed count positive; an uncompleted one keeps it below the lesson count |
| CourseOverview.IsCurrent | src/components/CourseOverview/CourseOverview.js:91 | a current lesson means the course is not finished and, past the first, its predecessor is completed; the first lesson is current exactly when it is not completed |
| CourseOverview.CompletedCount | src/components/CourseOverview/CourseOverview.js:21 | the count is at most the number of lessons; it equals that number exactly when all are completed, and is 0 exactly when none is |
| CourseOverview.CountSeesOnlyCourseLessons | src/components/CourseOverview/CourseOverview.js:21 | completed ids of other courses do not affect the count |
| CourseOverview.CountMonotone | src/components/CourseOverview/CourseOverview.js:21 | a larger completed list never lowers the count |
| CourseOverview.Progress | src/components/CourseOverview/CourseOverview.js:19-22 | the percentage is at most 100, and 0 for a course without lessons |
| CourseOverview.ProgressFullIffAllCompleted | src/components/CourseOverview/CourseOverview.js:19-22 | below 200 lessons, 100% holds exactly when every lesson of the course is completed |
| CourseOverview.LessonClick | src/components/CourseOverview/CourseOverview.js:24-28 | a click opens the lesson exactly when it is not locked |
| CourseOverview.FirstNeverLocked | src/components/CourseOverview/CourseOverview.js:90 | the first lesson is always open |
| CourseOverview.UnlockMonotone | src/components/CourseOverview/CourseOverview.js:88-91 | completing more never locks an open lesson |
| CourseOverview.CompletingPreviousUnlocks | src/components/CourseOverview/CourseOverview.js:90 | a lesson is locked exactly when the one before it is not completed, and completing that one opens it |
| CourseOverview.StaticFlagsMatchFreshLocks | src/data/courses.js:30 | with nothing completed, the computed locks agree with the content's static flags |
| CourseOverview.LockedButCompleted | src/components/CourseOverview/CourseOverview.js:88-91 | a lesson can be both completed and locked, and then it is not "current" |
| Settings.Merge | src/contexts/SettingsContext.js:40-42 | every field the patch sets is taken from the patch; every other field is kept |
| Settings.MergeLaws | src/contexts/SettingsContext.js:40-42 | an empty patch changes nothing, a repeated patch is idempotent, and two patches compose |
| Settings.Load | src/contexts/SettingsContext.js:19-31 | parsed settings are merged over the defaults, so a missing completed list becomes empty; no or unparsable settings give the defaults |
| Settings.SaveLoadRoundTrip | src/contexts/SettingsContext.js:33-38 | loading what was saved gives the same settings back |
| Settings.ExposedCompleted | src/contexts/SettingsContext.js:62 | a missing completed list is exposed as empty |
| Settings.CompleteLesson | src/contexts/SettingsContext.js:44-52 | afterwards the id is completed; a known id changes nothing; a new id is appended at the end |
| Settings.CompleteLessonIdempotent | src/contexts/SettingsContext.js:46 | completing twice is completing once, and a list without repeats keeps none |
| Settings.CompleteLessonKeeps | src/contexts/SettingsContext.js:47-50 | no completed id is lost, and the only id added is the given one |
| Store.ProgressWithDefaults | src/db/schema.ts:82-88 | a fresh progress row is not completed and has no completion time |
| Store.EnrollmentIsUnique | src/db/schema.ts:67-69 | at most one enrolment row per user and course |
| Store.ProgressIsUnique | src/db/schema.ts:89-91 | at most one progress row per user, course and lesson |
| Store.CertificateIsUnique | src/db/schema.ts:114-116 | at most one certificate per user and course |
| Store.CompletedRows | src/actions/course-actions.js:62-68 | exactly the completed progress rows of that user and course |
| Store.CompletedRowsReplace | src/actions/course-actions.js:53-59 | replacing a row by one with the same completed status for the user and course keeps the count |
| Store.LessonsOf | src/actions/course-actions.js:70-72 | exactly the lesson rows of that course |
| CourseActions.Percentage | src/actions/course-actions.js:74-76 | 0 without lessons, otherwise the rounded percentage, at most 100 when the count does not exceed the lessons |
| CourseActions.AppendEnrollmentKeyed | src/db/schema.ts:62-69 | appending an enrolment with a fresh id and a fresh pair keeps the table's keys |
| CourseActions.EnrollInCourse | src/actions/course-actions.js:13-33 | no user means "Unauthorized" and no change; a fault in the insert fails the call; otherwise an existing pair or id takes the do-nothing branch and still succeeds, and a known user and course always succeed; a failure changes nothing; consistency is kept |
| CourseActions.EnrollTwiceIsOnce | src/actions/course-actions.js:19-23 | a second enrolment changes nothing, and exactly one row holds the pair |
| CourseActions.FindProgressFrom | src/actions/course-actions.js:53-54 | it finds a row for the triple at or after the start, or there is none |
| CourseActions.FindProgress | src/actions/course-actions.js:53-54 | it finds the row for the triple, or there is none |
| CourseActions.AppendProgressKeyed | src/db/schema.ts:82-91 | appending a progress row with a fresh id and a fresh triple keeps the table's keys |
| CourseActions.UpsertProgress | src/actions/course-actions.js:46-59 | an existing row is marked completed with the new time; otherwise a completed row is inserted, or the insert fails on a taken id or a missing user or course; consistency is kept |
| CourseActions.AppendCertificateKeyed | src/db/schema.ts:108-116 | appending a certificate with a fresh id and a fresh pair keeps the table's keys |
| CourseActions.InsertCertificate | src/actions/course-actions.js:80-86 | an existing certificate or id takes the do-nothing branch; otherwise one is added, unless a reference is missing |
| CourseActions.Tally | src/actions/course-actions.js:61-97 | after the upsert: a fault in either select fails with the store as the upsert left it; otherwise the counts, the percentage and `isFinished` are reported, and a certificate is inserted only at exactly 100%, where a fault in that insert fails the call |
| CourseActions.Certify | src/actions/course-actions.js:78-97 | at 100%: a fault in the certificate insert fails with no change; otherwise the success record is returned with the certificate present unless the fresh id clashed, an existing certificate is left alone, and a consistent store with the completed row always succeeds |
| CourseActions.MarkLessonComplete | src/actions/course-actions.js:38-102 | no user means "Unauthorized"; a fault in the upsert fails with no change; on success the lesson is completed, and the counts, the percentage and `isFinished` are reported; a certificate is issued only at 100%; a failure that changed the store came from a fault after the upsert, and the lesson's completed row stays; without a fault, a known user and course always succeed |
| CourseActions.FaultAfterUpsertKeepsCompletion | src/actions/course-actions.js:46-101 | a fault in the completed-rows select returns failure, yet the store now holds the completed row, and a retry succeeds |
| CourseActions.RemarkKeepsCounts | src/actions/course-actions.js:53-76 | marking a lesson already completed succeeds and reports the completed rows and lessons the store already had |
| CourseActions.MarkTwiceSameCounts | src/actions/course-actions.js:53-76 | marking the same lesson again reports the same counts and percentage |
| CourseActions.ExactlyOneProgressRow | src/actions/course-actions.js:53-59 | after success exactly one progress row exists for the triple, and it is completed |
| CourseActions.OrphanDbConsistent | src/db/schema.ts:82-91 | a progress row may name a lesson id that has no lesson row; the store is still consistent |
| CourseActions.OrphanUpsert | src/actions/course-actions.js:46-59 | in that store, marking the real lesson inserts a second completed row |
| CourseActions.OrphanCounts | src/actions/course-actions.js:62-72 | there are then two completed rows against one lesson |
| CourseActions.OrphanRowsPushPastHundred | src/actions/course-actions.js:74-87 | the action reports 200% and issues no certificate, because the check is `=== 100` |
| CourseQueries.HeadIsLeast | src/queries/course-queries.js:28 | the first row of an ascending list has the least order |
| CourseQueries.InsertByOrder | src/queries/course-queries.js:28 | inserting keeps the list ascending and adds exactly the one row |
| CourseQueries.SortByOrder | src/queries/course-queries.js:26-29 | the result is ascending by `order` and is a permutation of the input |
| CourseQueries.FindCourse | src/queries/course-queries.js:20-22 | a course is found exactly when one has the id |
| CourseQueries.GetCourseById | src/queries/course-queries.js:19-35 | null for an unknown id; otherwise the course with exactly its own lesson rows, ascending by order |
| CourseQueries.EnrollmentsOf | src/queries/course-queries.js:43-48 | exactly the user's enrolments, each joined with its course |
| CourseQueries.GetUserEnrollments | src/queries/course-queries.js:40-49 | `[]` without a user; otherwise every enrolment of the user, and in a consistent store each has its course |
| CourseQueries.FindEnrollment | src/queries/course-queries.js:54-59 | a row is found exactly when the user is enrolled in the course |
| CourseQueries.GetEnrollment | src/queries/course-queries.js:51-62 | null when an argument is missing; otherwise the user's enrolment in the course, which is the only one |
| CourseQueries.FindCertificate | src/queries/course-queries.js:97-102 | a row is found exactly when the user holds a certificate for the course |
| CourseQueries.GetUserCertificate | src/queries/course-queries.js:94-105 | null when an argument is missing; otherwise the user's certificate for the course, which is the only one |
| CourseQueries.LessonIdsOf | src/queries/course-queries.js:87 | the lesson ids of the rows, in order |
| CourseQueries.GetCourseProgress | src/queries/course-queries.js:67-92 | with an argument missing, an empty report without totals; otherwise the completed ids, both counts and the rounded percentage |
| CourseQueries.ReportedIdsAreCompletedRows | src/queries/course-queries.js:70-87 | an id is reported exactly when the user has a completed row for it, even if no such lesson exists |
| CourseQueries.QueryAgreesWithAction | src/queries/course-queries.js:67-92 | right after `markLessonComplete`, the query reports the action's counts and percentage, and lists the lesson |
| Seed.Split | src/db/seed-courses.ts:12-15 | a plain string fills both columns; a bilingual field gives its English and French |
| Seed.SplitAgreesWithDisplay | src/db/seed-courses.ts:51-56 | the English column is what the UI shows in English; the French column differs from the French display only when the French text is empty |
| Seed.CourseRowFor | src/db/seed-courses.ts:18-26 | the course row carries the course's id, price, icon and colour, and its split title and description |
| Seed.CompositeId | src/db/seed-courses.ts:44 | the key is the course id, a dash, then the lesson id, so it splits back at the course id's length |
| Seed.CompositeIdIsNotLessonId | src/db/seed-courses.ts:44 | the composite key never equals the short lesson id |
| Seed.CompositeIdsCanCollide | src/db/seed-courses.ts:44 | two different course/lesson pairs can share a composite key |
| Seed.LessonRowFor | src/db/seed-courses.ts:47-58 | the lesson row carries the composite id, the course, the short id, the split fields, the counter value and the steps verbatim |
| Seed.CourseRowIds | src/db/schema.ts:19 | the course keys, one per row |
| Seed.LessonRowIds | src/db/schema.ts:39 | the lesson keys, one per row |
| Seed.CoursesKeyedIffDistinct | src/db/schema.ts:19 | the course table is keyed exactly when its ids have no repeats |
| Seed.LessonsKeyedIffDistinct | src/db/schema.ts:39 | the lesson table is keyed exactly when its ids have no repeats |
| Seed.IndexOf | src/db/seed-courses.ts:27-28 | the first position holding the key, or none when the key is absent |
| Seed.UpsertCourseRow | src/db/seed-courses.ts:18-39 | the row is present afterwards; the ids are unchanged on conflict or extended by the new id; other rows are untouched |
| Seed.Refreshed | src/db/seed-courses.ts:59-72 | the conflict branch keeps the row's id, course and short id, and takes every other column from the new row with the counter's order |
| Seed.UpsertLessonRow | src/db/seed-courses.ts:47-72 | the ids are unchanged on conflict or extended by the new id; no row changes course; other rows are untouched; a new key appends the row |
| Seed.UpsertLessonRowPlaces | src/db/seed-courses.ts:57-69 | afterwards some row carries the key and the new steps, with the inserted or the conflict order |
| Seed.CompositeIds | src/db/seed-courses.ts:43-44 | one composite key per lesson of the course, in order |
| Seed.LessonKeys | src/db/seed-courses.ts:44 | one composite key per given lesson, in order |
| Seed.SeedLessons | src/db/seed-courses.ts:42-73 | the loop keeps every earlier id in place and leaves every key of the remaining lessons present |
| Seed.SeedLessonsStep | src/db/seed-courses.ts:57-68 | one iteration upserts with the counter's value and moves on with the counter one higher |
| Seed.SeedLessonsAddsNothingPresent | src/db/seed-courses.ts:59-72 | when every remaining key is present, the loop adds no row |
| Seed.SeedLessonsKeepsKey | src/db/schema.ts:39 | lesson ids without repeats stay without repeats |
| Seed.SeedLessonsCourseIds | src/db/seed-courses.ts:49 | existing rows keep their course, and every added row names the seeded course |
| Seed.SeedLessonsKeepsOthers | src/db/seed-courses.ts:59-60 | rows whose id no remaining lesson produces pass through unchanged |
| Seed.SeedLessonsPlacesRows | src/db/seed-courses.ts:57-69 | without collisions inside the course, each lesson's row has its catalog position as `order` and its steps verbatim |
| Seed.SeedCourse | src/db/seed-courses.ts:9-73 | one course keeps every earlier course and lesson id in place, and afterwards holds the course and all its lesson keys |
| Seed.SeedCourseAddsNothingPresent | src/db/seed-courses.ts:27-39 | reseeding a course whose rows all exist adds no row |
| Seed.SeedCourseKeepsKeys | src/db/schema.ts:18-52 | the course and lesson tables stay keyed |
| Seed.UpsertCourseKeepsCourses | src/db/seed-courses.ts:27-39 | a course upsert removes no course and adds the upserted one |
| Seed.SeedCourseKeepsReferences | src/db/schema.ts:38-40 | every foreign key still resolves after seeding a course |
| Seed.SeedLessonsReferenceCourses | src/db/seed-courses.ts:49 | every lesson row names an existing course after seeding a course |
| Seed.SeedCourseKeepsConsistent | src/db/schema.ts:18-116 | seeding a course keeps every declared constraint |
| Seed.AllCompositeIds | src/db/seed-courses.ts:9 | the composite keys of every course in the list |
| Seed.SeedAll | src/db/seed-courses.ts:9-74 | a whole run keeps every earlier id, and afterwards holds every course and every lesson key |
| Seed.SeedAllKeepsConsistent | src/db/seed-courses.ts:9-74 | a whole run keeps every declared constraint |
| Seed.SeedAllAddsNothingPresent | src/db/seed-courses.ts:9-74 | a run over present keys adds no row |
| Seed.ReseedAddsNoRows | src/db/seed-courses.ts:27-72 | running the seed twice adds no row the second time |
| Translations.FlatSectionFacts | src/i18n/translations.js:3-8 | a flat section has unique names, non-empty strings, and strings one level deep |
| Translations.FlatSectionsSameShape | src/i18n/translations.js:3-8 | two flat sections with the same names have the same shape |
| Translations.SectionIsFlat | src/i18n/translations.js:3-8 | non-empty strings under distinct names make a flat section |
| Translations.KeyedNamesDistinct | src/i18n/translations.js:3-8 | a section with distinct keys has distinct names |
| Translations.SharedKeysSameNames | src/i18n/translations.js:3-8 | two sections with the same keys have the same names |
| Translations.DashboardKeysDistinct | src/i18n/translations.js:3-8 | the dashboard keys have no repeats |
| Translations.DashboardKeysInBoth | src/i18n/translations.js:3-62 | both dashboard sections have exactly these keys, in order |
| Translations.DashboardKeysInEnglish | src/i18n/translations.js:3-8 | the English dashboard section has these keys |
| Translations.DashboardKeysInFrench | src/i18n/translations.js:57-62 | the French dashboard section has these keys |
| Translations.DashboardEnglish | src/i18n/translations.js:3-8 | the English dashboard section is flat |
| Translations.DashboardEnglishLeaves | src/i18n/translations.js:3-8 | the English dashboard section holds only non-empty strings |
| Translations.DashboardFrench | src/i18n/translations.js:57-62 | the French dashboard section is flat |
| Translations.DashboardFrenchLeaves | src/i18n/translations.js:57-62 | the French dashboard section holds only non-empty strings |
| Translations.DashboardNamesAgree | src/i18n/translations.js:3-62 | the English and French dashboard sections have the same names |
| Translations.SettingsKeysDistinct | src/i18n/translations.js:9-25 | the settings keys have no repeats |
| Translations.SettingsKeysInBoth | src/i18n/translations.js:9-79 | both settings sections have exactly these keys, in order |
| Translations.SettingsKeysInEnglish | src/i18n/translations.js:9-25 | the English settings section has these keys |
| Translations.SettingsKeysInFrench | src/i18n/translations.js:63-79 | the French settings section has these keys |
| Translations.SettingsEnglish | src/i18n/translations.js:9-25 | the English settings section is flat |
| Translations.SettingsEnglishLeaves | src/i18n/translations.js:9-25 | the English settings section holds only non-empty strings |
| Translations.SettingsFrench | src/i18n/translations.js:63-79 | the French settings section is flat |
| Translations.SettingsFrenchLeaves | src/i18n/translations.js:63-79 | the French settings section holds only non-empty strings |
| Translations.SettingsNamesAgree | src/i18n/translations.js:9-79 | the English and French settings sections have the same names |
| Translations.CourseKeysDistinct | src/i18n/translations.js:26-54 | the course keys have no repeats |
| Translations.CourseKeysInBoth | src/i18n/translations.js:26-108 | both course sections have exactly these keys, in order |
| Translations.CourseKeysInEnglish | src/i18n/translations.js:26-54 | the English course section has these keys |
| Translations.CourseKeysInFrench | src/i18n/translations.js:80-108 | the French course section has these keys |
| Translations.CourseEnglish | src/i18n/translations.js:26-54 | the English course section is flat |
| Translations.CourseEnglishLeaves | src/i18n/translations.js:26-54 | the English course section holds only non-empty strings |
| Translations.CourseFrench | src/i18n/translations.js:80-108 | the French course section is flat |
| Translations.CourseFrenchLeaves | src/i18n/translations.js:80-108 | the French course section holds only non-empty strings |
| Translations.CourseNamesAgree | src/i18n/translations.js:26-108 | the English and French course sections have the same names |
| Translations.LanguageTable | src/i18n/translations.js:2-55 | three flat sections under distinct names make a well-formed language table |
| Translations.TablesWellFormed | src/i18n/translations.js:1-110 | the tables have unique names, non-empty strings and strings three levels deep, and English and French have the same shape |
| Translations.Find | src/i18n/translations.js:117 | the first field with the name, or none when no field has it |
| Translations.FindUnique | src/i18n/translations.js:117 | with unique names, the field carrying the name is the one found |
| Translations.FindSameNames | src/i18n/translations.js:117 | groups with the same names find the same position |
| Translations.Decimal | src/i18n/translations.js:117 | a number's spelling is non-empty digits without a leading zero |
| Translations.ArrayIndex | src/i18n/translations.js:117 | a property names a string's character exactly when it is a canonical decimal |
| Translations.DecimalRoundTrip | src/i18n/translations.js:117 | reading back a number's spelling gives the number |
| Translations.Member | src/i18n/translations.js:117 | `?.` gives undefined past undefined; a group's member exists exactly when a field has the name; a string answers `length` and single characters |
| Translations.Walk | src/i18n/translations.js:116-118 | nothing comes back from undefined, and an empty key list gives the start value |
| Translations.WalkFollowsPath | src/i18n/translations.js:114-118 | with unique names, a path of the table leads to its string |
| Translations.WalkEndsOnPath | src/i18n/translations.js:114-118 | a walk within the table's depth that ends on a string follows a path of the table |
| Translations.WalkAlike | src/i18n/translations.js:114-119 | tables of the same shape find a truthy value for the same keys |
| Translations.SplitPath | src/i18n/translations.js:114 | `split('.')` gives at least one part, and no part contains a dot |
| Translations.JoinSplit | src/i18n/translations.js:114 | joining the parts with dots restores the key |
| Translations.SplitDotFree | src/i18n/translations.js:114 | splitting a dot-free part alone or before a dot gives that part first |
| Translations.SplitJoin | src/i18n/translations.js:114 | splitting joined dot-free parts gives the parts back |
| Translations.Language | src/i18n/translations.js:112 | the language defaults to English |
| Translations.Resolved | src/i18n/translations.js:114-118 | the walk starts from the English or French table as the language says, and an unknown language gives undefined |
| Translations.T | src/i18n/translations.js:113-120 | the walk's value when truthy, otherwise the key itself; a non-empty key always shows something truthy |
| Translations.TableTextIsShown | src/i18n/translations.js:113-120 | every string of a language table is shown for its dotted key |
| Translations.NonEmptyPath | src/i18n/translations.js:1-110 | a path of a table without empty strings ends on a non-empty string |
| Translations.LanguageValues | src/i18n/translations.js:1-110 | the exported object's `en` and `fr` members are the two tables |
| Translations.UnknownLanguageShowsKey | src/i18n/translations.js:115-119 | a language without a table shows every key as itself |
| Translations.LanguagesFallBackAlike | src/i18n/translations.js:113-120 | for keys of at most two parts, English and French fall back to the key in exactly the same cases |
| Translations.WalkConcat | src/i18n/translations.js:116-118 | walking a concatenated key walks its parts in turn |
| Translations.PastTheText | src/i18n/translations.js:117 | one part past a table string still finds its length, or one of its characters |
| Translations.IndexedKeyShowsCharacter | src/i18n/translations.js:113-120 | a table string's key extended by an index shows one character, or the key when past the end |
| Translations.GroupKeyShowsGroup | src/i18n/translations.js:119 | a key naming a section shows the section object, not the key |
| Auth.Purchased | src/contexts/AuthContext.js:21 | a missing purchase list reads as empty; a present one, even empty, is used as is |
| Auth.DisplayName | src/contexts/AuthContext.js:19 | the full name, else the first name, else "User", skipping empty names; never empty |
| Auth.AppUser | src/contexts/AuthContext.js:17-22 | the app user copies id and e-mail and takes the display name and the purchase list |
| Auth.SyncUser | src/contexts/AuthContext.js:15-26 | while loading the user is kept; once loaded there is a user exactly when the provider has one |
| Auth.Applied | src/contexts/AuthContext.js:43-48 | a written purchase replaces the metadata; the other outcomes change nothing |
| Auth.AfterCourse | src/contexts/AuthContext.js:40-42 | the course is owned afterwards; the list is extended only by it, and only when it was missing |
| Auth.BuyCourse | src/contexts/AuthContext.js:33-49 | no user means sign up first; an owned course changes nothing; otherwise the course is appended and the other metadata kept |
| Auth.NewCourses | src/contexts/AuthContext.js:58 | exactly the package's courses not yet owned |
| Auth.BuyPackage | src/contexts/AuthContext.js:51-69 | no user means sign up first; nothing changes exactly when every course is owned; otherwise the new courses are appended and the other metadata kept |
| Auth.BuyCourseIdempotent | src/contexts/AuthContext.js:40 | buying a course twice is buying it once |
| Auth.BuyPackageIdempotent | src/contexts/AuthContext.js:58-60 | buying a package twice is buying it once, and afterwards all its courses are owned |
| Auth.BuyCourseKeepsDistinct | src/contexts/AuthContext.js:40-42 | a list without repeats keeps none after buying a course |
| Auth.AfterEach | src/contexts/AuthContext.js:33-49 | buying courses in turn keeps the earlier list as a prefix |
| Auth.NewCoursesIgnoresOthers | src/contexts/AuthContext.js:58 | owning an extra course outside the package does not change which courses are new |
| Auth.PackageIsCoursesInTurn | src/contexts/AuthContext.js:51-69 | a package without repeats does what buying its courses one after another does |
| Auth.RepeatedPackageCourseListedTwice | src/contexts/AuthContext.js:58-62 | a package naming a course twice adds it twice, since the filter checks only the list before the purchase |
| Highlight.GlowOf | src/components/Simulators/Win11/Win11.js:5-12 | an element glows exactly when it is the active target; red exactly for "attention"; a missing type means blue |
| Highlight.OneGlowAtATime | src/components/Simulators/Word/Word.js:4-11 | of two different elements at most one glows |
| Highlight.ClickOn | src/components/Simulators/Win11/Win11.js:25 | every control reports the action "click" with its target id |
| Win11.ToggleStart | src/components/Simulators/Win11/Win11.js:305 | the Start menu flips and the Settings window is untouched |
| Win11.OpenSettings | src/components/Simulators/Win11/Win11.js:307-310 | Settings is open and the Start menu closed afterwards |
| Win11.ToggleSettingsWindow | src/components/Simulators/Win11/Win11.js:312-318 | Settings flips; opening it closes the menu, closing it leaves the menu as it was |
| Win11.Press | src/components/Simulators/Win11/Win11.js:20-214 | a hidden control does nothing; the start button toggles the menu; the taskbar gear toggles Settings; the menu tile opens Settings and closes the menu; close shuts Settings; each reports its click, and the gear reports the tile's id |
| Win11.PressAll | src/components/Simulators/Win11/Win11.js:339-365 | a click sequence reports at most one call per click |
| Win11.StartButtonTwiceRestores | src/components/Simulators/Win11/Win11.js:305 | two start clicks restore the desktop |
| Win11.TaskbarGearReportsAnotherId | src/components/Simulators/Win11/Win11.js:51-57 | the taskbar gear reports `settings-app`, which completes the tile's step, while the ring is drawn only on the tile |
| Win11.TaskbarGearTwiceClosesStartMenu | src/components/Simulators/Win11/Win11.js:307-318 | two gear clicks from a closed window leave the menu closed as well |
| Win11.FirstLessonClicks | src/data/courses.js:73-110 | start, tile and close from a closed desktop report the first lesson's three targets in order and close the desktop again |
| Win11.TileNeedsOpenMenu | src/components/Simulators/Win11/Win11.js:358-365 | with the menu closed, the tile cannot be clicked |
| WordSimulator.Press | src/components/Simulators/Word/Word.js:46-186 | a hidden control does nothing; the blank tile opens the editor; bold toggles only with a selection but always reports; alignments set and report; the page types the sentence and reports only while targeted; the sentence is selected and reports without reaching the page |
| WordSimulator.PressKeepsValid | src/components/Simulators/Word/Word.js:14-18 | every click keeps the document valid: the landing page is blank, content is empty or the sentence, bold needs a selection, and the alignment is a ribbon value |
| WordSimulator.BlankIsValid | src/components/Simulators/Word/Word.js:14-18 | the initial document is valid |
| WordSimulator.BoldWithoutSelection | src/components/Simulators/Word/Word.js:135-138 | without a selection bold changes nothing but still reports its click |
| WordSimulator.BoldTwiceRestores | src/components/Simulators/Word/Word.js:136 | with a selection two bold clicks restore the document |
| WordSimulator.PageIgnoredOffTarget | src/components/Simulators/Word/Word.js:168-174 | the page ignores clicks unless it is the target |
| WordSimulator.FormattingLessonClicks | src/data/courses.js:290-327 | the formatting lesson's five clicks each report their target and leave the sentence selected, bold and centred |
| WordSimulator.AlignIdsDistinct | src/components/Simulators/Word/Word.js:152 | different alignments have different element ids |
| Walkthrough.Report | src/contexts/SettingsContext.js:44-52 | every reported lesson is completed afterwards, no completed lesson is lost, and nothing else is added |
| Walkthrough.FinishingUnlocksNext | src/components/CourseOverview/CourseOverview.js:88-91 | once the player reports a lesson finished, the overview opens the next lesson |
| Walkthrough.QuizlessLessonReportsNothing | src/components/LessonPlayer/LessonPlayer.js:99 | playing a lesson without a quiz leaves the settings unchanged |
| Walkthrough.ManagingFilesKeepsThirdLocked | src/data/courses.js:148-189 | the one-step second Windows lesson can never open the third |
| Walkthrough.RunAppend | src/components/LessonPlayer/LessonPlayer.js:103-154 | running two event lists in turn is running their concatenation |
| Walkthrough.StartLesson | src/components/LessonPlayer/LessonPlayer.js:248-253 | "Start Lesson" on an overview shows the next step with feedback cleared |
| Walkthrough.ClickThenAdvance | src/components/LessonPlayer/LessonPlayer.js:117-135 | the right click and its auto-advance move to the next step, using one timer id and reporting nothing |
| Walkthrough.RunClickThenAdvance | src/components/LessonPlayer/LessonPlayer.js:117-135 | the same pair of events inside a run |
| Walkthrough.WithAdvances | src/components/LessonPlayer/LessonPlayer.js:550-554 | each simulator report is followed by the advance it arms |
| Walkthrough.DesktopStepsReachQuiz | src/components/Simulators/Win11/Win11.js:20-214 | "Start Lesson" and the desktop's three reports bring the first lesson to its quiz |
| Walkthrough.QuizFinishesLesson | src/components/LessonPlayer/LessonPlayer.js:73-101 | both right answers score 2 of 2 and report the lesson finished once |
| Walkthrough.FirstLessonRun | src/data/courses.js:16-147 | the whole first lesson ends on the results, passed, with one finish report |
| Walkthrough.FirstLessonUnlocksSecond | src/components/CourseOverview/CourseOverview.js:88-91 | after the first lesson is played, the overview opens the second lesson |

## Left out

- Speech synthesis and voice selection (`speak`, `stopSpeaking`, the narration effects) are left out. They only produce audio. Voice-over appears only as the flag that picks the highlight type.
- Wall-clock time is left out. Timers are pending entries that fire when an event says so; the 6000 ms and 80 ms-per-character delay is recorded but not waited for.
- JSX layout, CSS classes, fullscreen and the back buttons are left out. `Offered` keeps only which controls are rendered.
- The database driver, Clerk's `auth()`, `revalidatePath`, `uuidv4()` and `new Date()` are left out. Ids and times are parameters.
- A database error that the store's constraints do not explain (a dropped connection, say) is a `Fault` parameter of the two actions. It names the statement that throws. Constraint and foreign-key violations are computed from the store itself. A throw from `revalidatePath` is not modelled.
- Timestamps with database defaults (`createdAt`, `updatedAt`, `enrolledAt`, `issuedAt`) are not columns of the model.
- `localStorage` reads and writes and JSON parsing are left out. A stored value is `Missing`, `Unparseable` or `Parsed(saved)`.
- Concurrency between requests is left out. Each action runs alone against the store.
- Prices are kept as the catalog's decimal text, not floating point.
- CourseQueries.GetCourseById: the order of rows with equal `order` is not stated, because SQL leaves it open; the contract gives sortedness and the row multiset only.
- `getAllCourses` is left out: its order is database string collation, which the model does not have.
- The order in which an unordered `findMany` returns rows is taken to be table order.
- String lengths count characters, not UTF-16 code units.
- The certificate modal, presentational pages, user sync, proxy, Drizzle config and layout are outside the modelled core.
- The seed script's `try/catch/finally` and `process.exit()` are left out.
- Translation lookup does not model members inherited from JavaScript prototypes (for example `t('dashboard.constructor')`). Only own fields, string `length` and string indices are modelled.
- `logout`, `login` and `signup` only navigate and are left out. So is the `useAuth`/`useSettings` guard that throws outside a provider, and the refresh of Clerk's user after `update`.
- WordSimulator.Press: the sentence's `stopPropagation` is modelled as a separate `Sentence` control whose click never reaches the page.
- Percent.PartialBelowHundred: holds only below 200 lessons, because `Math.round` sends 199 of 200 to 100 (see Percent.NearlyAllRoundsToHundred).
- CourseOverview.ProgressFullIffAllCompleted: "100% iff all completed" is stated for fewer than 200 lessons for the same reason.
- LessonPlayer.ProgressBounds: "100 only once completed" is stated for fewer than 200 steps for the same reason.
- Percent.HundredIffComplete: stated for fewer than 200 lessons for the same reason.
- Percent.RoundPercent: computes `Math.round(k / n * 100)` in exact rational arithmetic. Floating-point error in `k / n * 100` is not modelled.
