/** The tutorial page (client/src/pages/tutorial.tsx): which steps are shown as completed, the
    progress bar's percentage, and the only progress update the page sends. */
module Tutorial {
  import opened Schema
  import opened Query
  import Storage

  /** The ids of the five tutorial steps, in display order. */
  function TutorialStepIds(): (ids: seq<string>)
    ensures |ids| == 5
    ensures forall i, j :: 0 <= i < j < |ids| ==> ids[i] != ids[j]
  {
    ["intro-system-design", "design-canvas-basics", "first-architecture",
     "advanced-patterns", "scalability-patterns"]
  }

  function StepIdSet(): set<string> {
    set i | 0 <= i < |TutorialStepIds()| :: TutorialStepIds()[i]
  }

  /** The step ids of the completed rows: `new Set(rows.filter(p => p.completed).map(p => p.stepId))`. */
  function CompletedIds(rows: seq<TutorialProgress>): (done: set<string>)
    ensures forall id :: id in done <==> exists row :: row in rows && row.completed && row.stepId == id
  {
    if rows == [] then {}
    else
      assert rows == [rows[0]] + rows[1..];
      (if rows[0].completed then {rows[0].stepId} else {}) + CompletedIds(rows[1..])
  }

  /** completedSteps: the completed step ids when the progress query returned an array (None
      stands for anything else: not loaded, or not signed in), otherwise the empty set. */
  function CompletedSteps(progress: Option<seq<TutorialProgress>>): (done: set<string>)
    ensures progress.None? ==> done == {}
    ensures forall id :: id in done <==>
      progress.Some? && exists row :: row in progress.value && row.completed && row.stepId == id
  {
    match progress
    case None => {}
    case Some(rows) => CompletedIds(rows)
  }

  /** `completedSteps.has(step.id)`: a step shows its check mark exactly when some progress row
      for it is completed. */
  function IsStepCompleted(progress: Option<seq<TutorialProgress>>, stepId: string): (shown: bool)
    ensures shown <==>
      progress.Some? && exists row :: row in progress.value && row.completed && row.stepId == stepId
  {
    stepId in CompletedSteps(progress)
  }

  /** progressPercentage: completed steps over the number of steps, times 100; each step is
      worth a fifth of the bar. */
  function ProgressPercentage(done: set<string>): (pct: real)
    ensures pct == |done| as real * 20.0
    ensures pct >= 0.0
  {
    |done| as real / |TutorialStepIds()| as real * 100.0
  }

  lemma {:induction false} SubsetSize(a: set<string>, b: set<string>)
    requires a <= b
    ensures |a| <= |b|
  {
    if a != {} {
      var x :| x in a;
      SubsetSize(a - {x}, b - {x});
    }
  }

  /** While only defined steps are completed the bar is at most full, and it is full exactly when
      every defined step is completed. */
  lemma ProgressPercentageBounds(done: set<string>)
    requires done <= StepIdSet()
    ensures 0.0 <= ProgressPercentage(done) <= 100.0
    ensures ProgressPercentage(done) == 100.0 <==> done == StepIdSet()
  {
    var ids := TutorialStepIds();
    assert StepIdSet() == {ids[0], ids[1], ids[2], ids[3], ids[4]};
    assert |StepIdSet()| == 5;
    SubsetSize(done, StepIdSet());
    if done != StepIdSet() {
      var missing :| missing in StepIdSet() && missing !in done;
      assert done <= StepIdSet() - {missing};
      assert |StepIdSet() - {missing}| == 4;
      SubsetSize(done, StepIdSet() - {missing});
    }
  }

  /** Rows for step ids the page does not define also count, so the bar can pass 100. */
  lemma ProgressPercentageWithUnknownStep()
    ensures ProgressPercentage(StepIdSet() + {"retired-step"}) == 120.0
  {
    var ids := TutorialStepIds();
    assert StepIdSet() == {ids[0], ids[1], ids[2], ids[3], ids[4]};
    assert |StepIdSet() + {"retired-step"}| == 6;
  }

  /** The body of POST /api/tutorial/progress. */
  datatype ProgressRequest = ProgressRequest(stepId: string, completed: bool)

  /** handleStartStep: a signed-in user's click asks for the step to be marked completed; a signed-out
      user's click sends nothing. The page never asks for a step to be marked incomplete. */
  function HandleStartStep(isAuthenticated: bool, stepId: string): (request: Option<ProgressRequest>)
    ensures request.Some? <==> isAuthenticated
    ensures request.Some? ==> request.value.stepId == stepId && request.value.completed
  {
    if isAuthenticated then Some(ProgressRequest(stepId, true)) else None
  }

  /** A row for another (userId, stepId) pair is in the table after the upsert exactly when it
      was before. */
  lemma UpsertKeepsOtherRow(rows: seq<TutorialProgress>, nextId: int, userId: string, stepId: string,
                            now: int, row: TutorialProgress)
    requires !Storage.ProgressKeyIs(row, userId, stepId)
    ensures row in Storage.UpsertProgress(rows, nextId, userId, stepId, true, now) <==> row in rows
  {
  }

  /** After the upsert with `completed: true`, the step shows as completed for its user. */
  lemma UpsertCompletesStep(rows: seq<TutorialProgress>, nextId: int, userId: string, stepId: string, now: int)
    ensures stepId in CompletedSteps(Some(Storage.ProgressOf(Storage.UpsertProgress(rows, nextId, userId, stepId, true, now), userId)))
  {
    var after := Storage.UpsertProgress(rows, nextId, userId, stepId, true, now);
    Storage.UpsertRecordsCompletion(rows, nextId, userId, stepId, true, now);
    var i :| 0 <= i < |after| && Storage.ProgressKeyIs(after[i], userId, stepId);
    assert after[i] in Storage.ProgressOf(after, userId);
  }

  /** The upsert for one step leaves whether any other step shows as completed unchanged. */
  lemma UpsertKeepsOtherSteps(rows: seq<TutorialProgress>, nextId: int, userId: string, stepId: string, now: int, id: string)
    requires id != stepId
    ensures var after := Storage.UpsertProgress(rows, nextId, userId, stepId, true, now);
      (id in CompletedSteps(Some(Storage.ProgressOf(after, userId)))) <==>
      (id in CompletedSteps(Some(Storage.ProgressOf(rows, userId))))
  {
    var after := Storage.UpsertProgress(rows, nextId, userId, stepId, true, now);
    var mineAfter, mineBefore := Storage.ProgressOf(after, userId), Storage.ProgressOf(rows, userId);
    if id in CompletedSteps(Some(mineAfter)) {
      var row :| row in mineAfter && row.completed && row.stepId == id;
      UpsertKeepsOtherRow(rows, nextId, userId, stepId, now, row);
      assert row in mineBefore;
    }
    if id in CompletedSteps(Some(mineBefore)) {
      var row :| row in mineBefore && row.completed && row.stepId == id;
      UpsertKeepsOtherRow(rows, nextId, userId, stepId, now, row);
      assert row in mineAfter;
    }
  }

  /** Starting a step, once the server has stored the request with updateTutorialProgress, adds
      exactly that step to the user's completed steps and leaves the others as they were. */
  lemma StartStepMarksCompleted(rows: seq<TutorialProgress>, nextId: int, userId: string, stepId: string, now: int)
    ensures var request := HandleStartStep(true, stepId).value;
      var after := Storage.UpsertProgress(rows, nextId, userId, request.stepId, request.completed, now);
      CompletedSteps(Some(Storage.ProgressOf(after, userId)))
        == CompletedSteps(Some(Storage.ProgressOf(rows, userId))) + {stepId}
  {
    var after := Storage.UpsertProgress(rows, nextId, userId, stepId, true, now);
    var lhs := CompletedSteps(Some(Storage.ProgressOf(after, userId)));
    var rhs := CompletedSteps(Some(Storage.ProgressOf(rows, userId))) + {stepId};
    forall id
      ensures id in lhs <==> id in rhs
    {
      if id == stepId {
        UpsertCompletesStep(rows, nextId, userId, stepId, now);
      } else {
        UpsertKeepsOtherSteps(rows, nextId, userId, stepId, now, id);
      }
    }
  }
}
