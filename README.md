# Architecture Arena: battle timing, scoring, statistics and tutorial progress

A model, in Dafny, of the small amount of logic in the Architecture Arena web application:

- **The battle page** (`client/src/pages/challenge.tsx`). It covers the score formula, the `m:ss` clock,
  and the remaining time of a battle that is taken up again after a reload. It also covers the time
  spent recorded on submit. The page state (`timeLeft`, `currentBattle`, `architecture`, the two query
  results) is a class, `Challenge.ChallengePage`. Each React effect run and each click handler is one
  method of it.
- **The storage layer** (`server/storage.ts`). The battles and tutorial_progress tables are sequences
  of rows held by `Storage.Database`. `getUserBattles`, `updateBattle`, `updateTutorialProgress` and
  `getUserStats` are methods over those tables. The SQL clauses are the functions `Query.Filter`
  (`WHERE`) and `Query.SortDesc` (`ORDER BY ... DESC`).
- **The tutorial page** (`client/src/pages/tutorial.tsx`). It covers the set of completed steps, the
  progress percentage, and the one request the page sends.

Records follow `shared/schema.ts` (`Schema` module). Timestamps are integers in milliseconds. A nullable
column is an `Option`. `timeLimit` is in minutes and `timeSpent` in seconds.

What is proved, in short:

- `currentStreak` always equals `battlesWon`. The streak loop runs over a list that is already
  filtered to COMPLETED, so its `break` is never reached.
- `xpToNextTier` is a multiple of 100 in [100, 1000]. It is 1000 exactly when the number of wins is a
  multiple of ten.
- The score is the floor of `nodes*10 + max(0, timeLeft/60)*5`, which equals
  `10*nodes + timeLeft/12` for a positive `timeLeft`. The score is monotone in both inputs.
- Reading the clock back gives the seconds it was made from.
- The tutorial upsert keeps one row per (user, step) and leaves other pairs alone. Starting a step adds
  exactly that step to the user's completed set.

Module layout: `Schema.dfy`, `Query.dfy`, `Storage.dfy`, `Challenge.dfy`, `Tutorial.dfy`.

## Model

| member | source | states |
|---|---|---|
| `Schema.ApplyPatch` | server/storage.ts:117-120 | `UPDATE ... SET updateData` changes only the columns the patch carries; id, owner, challenge, start and creation time are kept |
| `Query.Filter` | server/storage.ts:239-242 | the kept rows are exactly the rows satisfying the condition, with their multiplicities, never more rows than the input |
| `Query.SortDesc` | server/storage.ts:248-250 | the result is a permutation of the input whose keys never increase |
| `Storage.OwnedBy` | server/storage.ts:233-236 | the user's battles, each as often as it is in the table, and no battle of another user |
| `Storage.UpdateWhere` | server/storage.ts:116-123 | every row matching both battle id and owner gets the patch; every other row is unchanged; the length is kept |
| `Storage.SumTimeSpent` | server/storage.ts:244 | the `reduce` over each `timeSpent`, null counted as 0; it is 0 when no battle has a truthy timeSpent |
| `Storage.SumTimeSpentOfTimed` | server/storage.ts:242-244 | summing over all battles or only over those with a truthy timeSpent gives the same total, so the filter before the `reduce` changes nothing in the sum |
| `Storage.LeadingCompleted` | server/storage.ts:252-259 | the streak loop's count never exceeds the number of battles it walks |
| `Storage.LeadingCompletedOfWon` | server/storage.ts:248-259 | on a list of COMPLETED battles the streak is the whole list (the `break` is unreachable) |
| `Storage.SortedWonAreWon` | server/storage.ts:248-250 | sorting the COMPLETED battles by completion time keeps their number and keeps them all COMPLETED |
| `Storage.XpToNextTier` | server/storage.ts:267 | the XP still needed is in (0, 1000], and adding it to `won*100` reaches a multiple of 1000 |
| `Storage.XpToNextTierRange` | server/storage.ts:267 | `1000 - (won*100) % 1000` is a multiple of 100 in [100, 1000], and is 1000 iff `won` is a multiple of 10 |
| `Storage.WinRate` | server/storage.ts:240 | 0 with no battles; otherwise `rate * total == 100 * won`; always between 0 and 100 when `won <= total` |
| `Storage.AvgCompletionTime` | server/storage.ts:242-245 | 0 when no battle has a truthy timeSpent; otherwise `avg * count` is the sum of those times |
| `Storage.FindProgress` | server/storage.ts:193-203 | the `existing` select finds the first row for (userId, stepId), or none exists |
| `Storage.CompletedAtFor` | server/storage.ts:208 | `completedAt` is present iff `completed`, and is then the current time (the insert at line 225 uses the same expression) |
| `Storage.SetCompletion` | server/storage.ts:204-217 | the update sets `completed` and `completedAt` (now iff completed) on the rows for the pair and leaves every other row unchanged |
| `Storage.UpsertProgress` | server/storage.ts:192-230 | the table keeps its length when a row for the pair exists and grows by one otherwise; no existing row changes id, owner, step or creation time |
| `Storage.UpsertRecordsCompletion` | server/storage.ts:203-229 | after the upsert a row for the pair exists, in both branches, and it records `completed`, with `completedAt` present iff `completed` |
| `Storage.UpsertKeepsOtherPairs` | server/storage.ts:192-230 | rows for other pairs keep place and contents; at most one row is added, and it is for the pair |
| `Storage.UpsertKeepsKeysUnique` | server/storage.ts:192-230 | the upsert never creates a second row for a pair, and the inserted id is fresh |
| `Storage.ProgressOf` | server/storage.ts:185-190 | the user's progress rows, each as often as it is in the table, and no row of another user |
| `Storage.Database.CreateBattle` | server/storage.ts:100-106 | appends one row with the next serial id, start and creation time now, nothing else set |
| `Storage.Database.GetUserBattles` | server/storage.ts:108-114 | the result is exactly the user's battles (as a multiset) ordered by creation time, newest first |
| `Storage.Database.UpdateBattle` | server/storage.ts:116-123 | only a row whose id and owner both match is patched and returned; with no such row nothing changes and nothing is returned (the route's 404) |
| `Storage.Database.GetTutorialProgress` | server/storage.ts:185-190 | returns exactly the user's progress rows, each as often as it is in the table, and no other row |
| `Storage.Database.UpdateTutorialProgress` | server/storage.ts:192-230 | table becomes the upsert of the old one; the returned row is the only row for the pair, with `completed` as given and `completedAt` present iff completed; battles unchanged |
| `Storage.Database.CurrentStreak` | server/storage.ts:252-259 | the loop counts the COMPLETED battles at the front of the list, stopping at the first other one |
| `Storage.Database.GetUserStats` | server/storage.ts:232-269 | total and won counts over the user's battles, `won <= total`, win rate in [0, 100], the mean time over truthy timeSpent, streak equal to wins, XP to next tier in [100, 1000] |
| `Challenge.ComponentsCount` | client/src/pages/challenge.tsx:163 | the number of nodes, 0 without a nodes list; it has no contract of its own, and `Challenge.ScoreMonotone` and `Challenge.CalculateScore` carry what the score needs from it |
| `Challenge.ScoreFormula` | client/src/pages/challenge.tsx:163-165 | over exact reals, ten points per component plus a twelfth of a point per second left; nothing for time at or past the limit |
| `Challenge.ScoreFormulaFloor` | client/src/pages/challenge.tsx:163-165 | `floor(nodes*10 + max(0, timeLeft/60)*5)` is `10*nodes + timeLeft/12` for positive timeLeft, `10*nodes` otherwise |
| `Challenge.CalculateScore` | client/src/pages/challenge.tsx:160-166 | 0 without an architecture; otherwise the floor of the score expression over exact reals; never negative |
| `Challenge.ScoreMonotone` | client/src/pages/challenge.tsx:163-165 | more components or more time left never lowers the score |
| `Challenge.IntToString` | client/src/pages/challenge.tsx:171 | `toString` of an integer; it has no contract of its own, and `Challenge.IntToStringValue` carries its properties |
| `Challenge.IntToStringValue` | client/src/pages/challenge.tsx:171 | the numeral reads back as the value; a negative value gets a minus sign before the numeral of its magnitude |
| `Challenge.PadStart` | client/src/pages/challenge.tsx:171 | `padStart`; it has no contract of its own, and `Challenge.PadStartShape` and `Challenge.PaddedSeconds` carry its properties |
| `Challenge.PadStartShape` | client/src/pages/challenge.tsx:171 | the padded string reaches the width, ends with the original string, and has only the fill character before it |
| `Challenge.JsRemainder` | client/src/pages/challenge.tsx:170 | JavaScript's `%`: the remainder lies strictly between `-b` and `b`, is congruent to the dividend modulo `b`, and takes the dividend's sign |
| `Challenge.PaddedSeconds` | client/src/pages/challenge.tsx:171 | `padStart(2, '0')` turns a seconds value below 60 into exactly its two decimal digits |
| `Challenge.FormatTime` | client/src/pages/challenge.tsx:168-172 | formatTime; it has no contract of its own, and `Challenge.FormatTimeDigits`, `Challenge.FormatTimeRoundTrip` and `Challenge.FormatTimeNegative` carry its properties |
| `Challenge.FormatTimeDigits` | client/src/pages/challenge.tsx:168-172 | for `s >= 0` the clock is `s / 60` in decimal, a colon, and the two digits of `s % 60` |
| `Challenge.FormatTimeRoundTrip` | client/src/pages/challenge.tsx:168-172 | parsing the clock back gives `60*m + ss == s` with `ss < 60` |
| `Challenge.FormatTimeNegative` | client/src/pages/challenge.tsx:168-172 | with JavaScript's truncating `%`, -5 seconds shows as `-1:-5` |
| `Challenge.NatToStringValue` | client/src/pages/challenge.tsx:171 | the decimal numeral of `n` reads back as `n` |
| `Challenge.RemainingSeconds` | client/src/pages/challenge.tsx:41-46 | the result is the whole seconds of `max(0, limit*60000 - elapsed)`, never negative, at most `limit*60` when elapsed is non-negative |
| `Challenge.RemainingSecondsNonIncreasing` | client/src/pages/challenge.tsx:42-46 | a later clock reading never leaves more time |
| `Challenge.TimeSpent` | client/src/pages/challenge.tsx:145 | `timeSpent + timeLeft == limit*60`, within [0, limit*60] when timeLeft is; 0 while the challenge has not loaded |
| `Challenge.FirstActive` | client/src/pages/challenge.tsx:36-38 | the position of the first ACTIVE battle of this challenge, or none exists |
| `Challenge.FindActiveBattle` | client/src/pages/challenge.tsx:36-38 | the first battle of the list with this challenge id and status ACTIVE; none iff there is no such battle |
| `Challenge.ResumeAsWritten` | client/src/pages/challenge.tsx:35-52 | as written: a battle is taken up iff the list has an active one for this challenge, whether or not the challenge has loaded |
| `Challenge.ResumeBeforeChallengeLeavesTimerUnset` | client/src/pages/challenge.tsx:39-47 | as written, an ACTIVE battle found before the challenge loads is taken up with no timer; at the untouched timer of 0 the countdown submits it, and the server stores it COMPLETED with timeSpent 0 |
| `Challenge.Resume` | client/src/pages/challenge.tsx:35-52 | corrected: a battle is taken up only once the challenge has loaded, and then its timer is the remaining seconds from its start time |
| `Challenge.Countdown` | client/src/pages/challenge.tsx:55-63 | the effect ticks iff time is left, and auto-submits iff the time is exactly 0 and a battle is current |
| `Challenge.SavePatch` | client/src/pages/challenge.tsx:133-135 | a save sets only the design; status, completion time, time spent and score are left alone |
| `Challenge.SubmitPatch` | client/src/pages/challenge.tsx:146-152 | a submit sets every column: COMPLETED at now, the page's design, a time spent that adds up with the time left to the limit, and a non-negative score (0 without a design) |
| `Challenge.SubmitCompletesBattle` | client/src/pages/challenge.tsx:143-152 | a submitted battle becomes COMPLETED at `now`, its timeSpent and the time left add up to the limit, and its score is non-negative |
| `Challenge.ChallengePage.constructor` | client/src/pages/challenge.tsx:21-23 | the page starts with timeLeft 0, no design, no current battle and nothing loaded |
| `Challenge.ChallengePage.TakeUp` | client/src/pages/challenge.tsx:39-50 | sets the battle, then the timer and the design where the lookup has them; with no battle found nothing changes |
| `Challenge.ChallengePage.ResumeEffect` | client/src/pages/challenge.tsx:35-52 | sets the current battle, the timer and the design from the resumed battle when there is one; otherwise changes nothing |
| `Challenge.ChallengePage.ResumeEffectAsWritten` | client/src/pages/challenge.tsx:35-52 | the same page update driven by the as-written lookup, which does not wait for the challenge |
| `Challenge.ChallengePage.ChallengeLoaded` | client/src/pages/challenge.tsx:26-28 | the challenge arrives and the resume effect runs again: battle, timer and design come from the resumed battle, or stay as they were when none is found |
| `Challenge.ChallengePage.UserBattlesLoaded` | client/src/pages/challenge.tsx:30-32 | the battles list arrives or is refetched and the resume effect runs again: battle, timer and design come from the resumed battle, or stay as they were when none is found |
| `Challenge.ChallengePage.StartBattleSucceeded` | client/src/pages/challenge.tsx:73-77 | the new battle becomes current and the timer is `timeLimit * 60` |
| `Challenge.ChallengePage.SetArchitecture` | client/src/pages/challenge.tsx:320 | the canvas's design replaces the page's design |
| `Challenge.ChallengePage.HandleSave` | client/src/pages/challenge.tsx:131-141 | sends the design only with a current battle and a design; otherwise sends nothing |
| `Challenge.ChallengePage.HandleSubmit` | client/src/pages/challenge.tsx:143-158 | with a current battle, sends COMPLETED with the time spent, the design and the score; otherwise sends nothing |
| `Challenge.ChallengePage.Tick` | client/src/pages/challenge.tsx:54-63 | timeLeft drops by exactly one while positive and never goes below zero; at 0 with a current battle the page submits |
| `Challenge.ReloadBeforeChallengeLoads` | client/src/pages/challenge.tsx:35-63 | as written, on a page whose battles arrive before its challenge, the first countdown run sends exactly one request: the ACTIVE battle submitted with timeSpent 0 |
| `Tutorial.TutorialStepIds` | client/src/pages/tutorial.tsx:21-318 | there are five step ids and they are pairwise distinct |
| `Tutorial.CompletedIds` | client/src/pages/tutorial.tsx:342 | the set holds exactly the stepIds of the completed rows |
| `Tutorial.CompletedSteps` | client/src/pages/tutorial.tsx:342 | exactly the stepIds of completed rows when progress is an array; the empty set otherwise |
| `Tutorial.IsStepCompleted` | client/src/pages/tutorial.tsx:432 | a step shows as completed iff the progress is an array holding a completed row with its id |
| `Tutorial.ProgressPercentage` | client/src/pages/tutorial.tsx:343 | each completed id is worth 20 percent of the bar (five steps), and the value is never negative |
| `Tutorial.ProgressPercentageBounds` | client/src/pages/tutorial.tsx:343 | with only defined step ids completed, the percentage is in [0, 100] and is 100 iff every step is completed |
| `Tutorial.ProgressPercentageWithUnknownStep` | client/src/pages/tutorial.tsx:343 | rows for ids the page does not define also count: the percentage can reach 120 |
| `Tutorial.HandleStartStep` | client/src/pages/tutorial.tsx:345-349 | a request is sent iff the user is signed in, and it always carries `completed: true` for the clicked step |
| `Tutorial.UpsertKeepsOtherRow` | server/storage.ts:204-229 | a row for another pair is in the table after the upsert iff it was before |
| `Tutorial.UpsertCompletesStep` | client/src/pages/tutorial.tsx:345-349 | after the server stores `completed: true` for a step, that step is among the user's completed steps |
| `Tutorial.UpsertKeepsOtherSteps` | server/storage.ts:204-229 | the upsert for one step does not change whether any other step is completed |
| `Tutorial.StartStepMarksCompleted` | client/src/pages/tutorial.tsx:345-349 | once the server stores the request, the user's completed steps are the old ones plus the clicked step; no step is ever un-completed |

## Left out

- Storage: user, challenge, editorial, submission and leaderboard operations are not modelled. They are single inserts or selects outside this core. `createBattle` is kept because the battles table needs rows.
- Drizzle and Postgres are replaced by in-memory sequences. `serial` ids are a counter starting at 1. Concurrent requests and transactions are not modelled.
- Postgres leaves the order of rows with equal `createdAt` unspecified. The model only promises the descending order. `createdAt` is treated as never null.
- `Storage.Database.UpdateBattle`: the patch carries only the five columns the battle page sends (status, completedAt, timeSpent, score, architecture). A request body that also sets id, owner, challenge, startedAt or createdAt is not modelled.
- `Storage.WinRate`, `Storage.AvgCompletionTime`, `Challenge.ScoreFormula` and `Tutorial.ProgressPercentage` use exact reals rather than IEEE doubles, so floating-point rounding is not modelled.
- Battle status and challenge difficulty are enumerations. The `varchar` columns could hold other strings.
- Clocks (`Date.now()`, `new Date()`) are `now` parameters. `setTimeout` scheduling is the caller invoking `ChallengePage.Tick`.
- `Challenge.ChallengePage.Tick`: the model lets `Tick` run at any time. React re-runs the countdown effect only when `timeLeft` or `currentBattle` changes, so the page submits once when it reaches 0, not on every call.
- Network requests are recorded in `ChallengePage.requests` instead of being sent. Toasts, query invalidation, and the log-in redirect on 401 are not modelled. A refetch is the caller invoking `UserBattlesLoaded`.
- `Challenge.ChallengePage.ResumeEffect`, `Challenge.ChallengePage.ChallengeLoaded` and `Challenge.ChallengePage.UserBattlesLoaded` run the corrected `Challenge.Resume` (see Findings). The code as written is `Challenge.ResumeAsWritten`, run on the page by `Challenge.ChallengePage.ResumeEffectAsWritten`.
- `Challenge.Resume`: a battle with a null `startedAt` still leaves the timer unset, as in the code. The column defaults to the creation time, so this does not arise in practice.
- The challenge id comes from `parseInt` on the URL. A non-numeric id (NaN) is not modelled.
- The tutorial page's signed-in state is a parameter. The HTTP route for tutorial progress is not among the server routes in this repository. `Tutorial.StartStepMarksCompleted` assumes the request reaches `updateTutorialProgress` for the signed-in user.
- All rendering, the canvas editor, the simulated metrics, authentication and sessions are presentation or library code and are not modelled.

## Findings

| source | as written | input that shows it | evidently intended | confidence | as-written member | corrected member |
|---|---|---|---|---|---|---|
| client/src/pages/challenge.tsx:35-63 | The resume effect sets `currentBattle` as soon as the battles list has an ACTIVE battle for this challenge. It sets `timeLeft` only when the challenge query has also loaded, so `timeLeft` stays at its initial 0. The countdown effect then sees `timeLeft === 0` with a current battle and submits the battle as COMPLETED with `timeSpent` 0. | The user's battles list (for example, cached from the home page's "Continue" link) holds an ACTIVE battle for this challenge while the challenge query is still loading. | A battle is taken up only once its timer can be set from the time limit, so an automatic submit happens only when the time has run out. | medium; not executed | `Challenge.ResumeAsWritten`, `Challenge.ResumeBeforeChallengeLeavesTimerUnset`, `Challenge.ReloadBeforeChallengeLoads` | `Challenge.Resume` |
