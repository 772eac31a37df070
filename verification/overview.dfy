/** The course overview page (src/components/CourseOverview/CourseOverview.js):
    per-lesson lock and completion status, the course progress figure, and
    the click guard. Completion is the settings store's list of lesson ids. */
module CourseOverview {
  import opened Common
  import opened Percent
  import opened Catalog

  /** A lesson is locked when it is not the first and the lesson before it
      is not in the completed list. Its own completion does not matter. */
  predicate IsLocked(lessons: seq<Lesson>, completed: seq<string>, i: nat)
    requires i < |lessons|
    ensures i == 0 ==> !IsLocked(lessons, completed, i)
    ensures IsLocked(lessons, completed, i) ==> CompletedCount(lessons[..i], completed) < i
    ensures CompletedCount(lessons[..i], completed) == i ==> !IsLocked(lessons, completed, i)
  {
    assert i > 0 ==> lessons[..i][i - 1] == lessons[i - 1];
    i > 0 && lessons[i - 1].id !in completed
  }

  predicate IsCompleted(lessons: seq<Lesson>, completed: seq<string>, i: nat)
    requires i < |lessons|
    ensures IsCompleted(lessons, completed, i) ==> CompletedCount(lessons, completed) > 0
    ensures !IsCompleted(lessons, completed, i) ==> CompletedCount(lessons, completed) < |lessons|
  {
    lessons[i].id in completed
  }

  /** Neither locked nor completed: the lesson to do next. */
  predicate IsCurrent(lessons: seq<Lesson>, completed: seq<string>, i: nat)
    requires i < |lessons|
    ensures IsCurrent(lessons, completed, i) ==> CompletedCount(lessons, completed) < |lessons|
    ensures IsCurrent(lessons, completed, i) && i > 0 ==> IsCompleted(lessons, completed, i - 1)
    ensures i == 0 ==> (IsCurrent(lessons, completed, i) <==> !IsCompleted(lessons, completed, i))
  {
    !IsLocked(lessons, completed, i) && !IsCompleted(lessons, completed, i)
  }

  /** Number of the course's lessons whose id is in the completed list;
      ids of other courses' lessons are not counted. */
  function CompletedCount(lessons: seq<Lesson>, completed: seq<string>): (n: nat)
    ensures n <= |lessons|
    ensures n == |lessons| <==> forall i :: 0 <= i < |lessons| ==> lessons[i].id in completed
    ensures n == 0 <==> forall i :: 0 <= i < |lessons| ==> lessons[i].id !in completed
  {
    if lessons == [] then 0
    else
      var rest := CompletedCount(lessons[1..], completed);
      assert forall i :: 1 <= i < |lessons| ==> lessons[i] == lessons[1..][i - 1];
      (if lessons[0].id in completed then 1 else 0) + rest
  }

  /** The count sees the completed list only through membership of the
      course's own lesson ids. */
  lemma {:induction false} CountSeesOnlyCourseLessons(lessons: seq<Lesson>, c1: seq<string>, c2: seq<string>)
    requires forall l :: l in lessons ==> (l.id in c1 <==> l.id in c2)
    ensures CompletedCount(lessons, c1) == CompletedCount(lessons, c2)
  {
    if lessons != [] {
      assert lessons[0] in lessons;
      assert forall l :: l in lessons[1..] ==> l in lessons;
      CountSeesOnlyCourseLessons(lessons[1..], c1, c2);
    }
  }

  /** Completing more lessons never lowers the count. */
  lemma {:induction false} CountMonotone(lessons: seq<Lesson>, c1: seq<string>, c2: seq<string>)
    requires forall x :: x in c1 ==> x in c2
    ensures CompletedCount(lessons, c1) <= CompletedCount(lessons, c2)
  {
    if lessons != [] {
      CountMonotone(lessons[1..], c1, c2);
    }
  }

  /** The course progress bar: `round(completed / total * 100)`, or 0 for a
      course without lessons. */
  function Progress(c: Course, completed: seq<string>): (p: nat)
    ensures p <= 100
    ensures |c.lessons| == 0 ==> p == 0
  {
    var total := |c.lessons|;
    if total > 0 then
      var k := CompletedCount(c.lessons, completed);
      AtMostHundred(k, total);
      RoundPercent(k, total)
    else 0
  }

  /** For courses under 200 lessons the bar shows 100% exactly when every
      lesson of the course is completed. */
  lemma ProgressFullIffAllCompleted(c: Course, completed: seq<string>)
    requires 0 < |c.lessons| < 200
    ensures Progress(c, completed) == 100 <==> forall i :: 0 <= i < |c.lessons| ==> c.lessons[i].id in completed
  {
    HundredIffComplete(CompletedCount(c.lessons, completed), |c.lessons|);
  }

  /** `handleLessonClick`: a click opens the lesson only when it is not
      locked. */
  function LessonClick(lessons: seq<Lesson>, completed: seq<string>, i: nat): (r: Option<Lesson>)
    requires i < |lessons|
    ensures r.Some? <==> !IsLocked(lessons, completed, i)
    ensures r.Some? ==> r.value == lessons[i]
  {
    if IsLocked(lessons, completed, i) then None else Some(lessons[i])
  }

  /** The first lesson is never locked. */
  lemma FirstNeverLocked(lessons: seq<Lesson>, completed: seq<string>)
    requires |lessons| > 0
    ensures !IsLocked(lessons, completed, 0)
    ensures LessonClick(lessons, completed, 0) == Some(lessons[0])
  {
  }

  /** Completing lessons only ever unlocks: a lesson open under a smaller
      completed list stays open under a larger one. */
  lemma UnlockMonotone(lessons: seq<Lesson>, c1: seq<string>, c2: seq<string>, i: nat)
    requires i < |lessons|
    requires forall x :: x in c1 ==> x in c2
    ensures !IsLocked(lessons, c1, i) ==> !IsLocked(lessons, c2, i)
  {
  }

  /** Completing the previous lesson is exactly what unlocks a lesson. */
  lemma CompletingPreviousUnlocks(lessons: seq<Lesson>, completed: seq<string>, i: nat)
    requires 0 < i < |lessons|
    ensures !IsLocked(lessons, completed + [lessons[i - 1].id], i)
    ensures IsLocked(lessons, completed, i) <==> lessons[i - 1].id !in completed
  {
  }

  /** With nothing completed, the computed locks coincide with the content's
      static `isLocked` flags whenever those follow the usual pattern. */
  lemma StaticFlagsMatchFreshLocks(lessons: seq<Lesson>, i: nat)
    requires StaticLocksAgree(lessons)
    requires i < |lessons|
    ensures IsLocked(lessons, [], i) <==> lessons[i].isLocked
  {
  }

  /** Lock and completion are independent: a lesson whose predecessor is not
      completed is shown locked even when it is itself completed. */
  lemma LockedButCompleted(a: Lesson, b: Lesson)
    requires a.id != b.id
    ensures IsLocked([a, b], [b.id], 1) && IsCompleted([a, b], [b.id], 1)
    ensures !IsCurrent([a, b], [b.id], 1)
  {
  }
}
