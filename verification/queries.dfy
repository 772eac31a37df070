/** The read side (src/queries/course-queries.js): course lookup with its
    lessons in `order`, a user's enrolments, single-row lookups and the
    per-course progress report. The row order of an unordered `findMany`
    is taken to be table order. */
module CourseQueries {
  import opened Common
  import opened Store
  import CourseActions

  // ---- getCourseById ----

  predicate SortedByOrder(ls: seq<LessonRow>) {
    forall i, j :: 0 <= i < j < |ls| ==> ls[i].order <= ls[j].order
  }

  /** The first of ascending rows has the least `order`. */
  lemma HeadIsLeast(ls: seq<LessonRow>)
    requires SortedByOrder(ls) && ls != []
    ensures forall y :: y in ls ==> ls[0].order <= y.order
  {
    forall y | y in ls ensures ls[0].order <= y.order {
      var k :| 0 <= k < |ls| && ls[k] == y;
      if k > 0 { assert ls[0].order <= ls[k].order; }
    }
  }

  /** Insert one lesson row into rows already ascending by `order`. */
  function InsertByOrder(x: LessonRow, ls: seq<LessonRow>): (r: seq<LessonRow>)
    requires SortedByOrder(ls)
    ensures SortedByOrder(r)
    ensures multiset(r) == multiset(ls) + multiset{x}
    ensures forall y :: y in r ==> y in ls || y == x
  {
    if ls == [] then [x]
    else if x.order <= ls[0].order then
      HeadIsLeast(ls);
      [x] + ls
    else
      var rest := InsertByOrder(x, ls[1..]);
      InsertedAfterHead(x, ls, rest);
      [ls[0]] + rest
  }

  /** The head of ascending rows stays in front of a later insertion. */
  lemma InsertedAfterHead(x: LessonRow, ls: seq<LessonRow>, rest: seq<LessonRow>)
    requires SortedByOrder(ls) && ls != [] && ls[0].order < x.order
    requires SortedByOrder(rest) && multiset(rest) == multiset(ls[1..]) + multiset{x}
    requires forall y :: y in rest ==> y in ls[1..] || y == x
    ensures SortedByOrder([ls[0]] + rest)
    ensures multiset([ls[0]] + rest) == multiset(ls) + multiset{x}
    ensures forall y :: y in [ls[0]] + rest ==> y in ls || y == x
  {
    HeadIsLeast(ls);
    assert ls == [ls[0]] + ls[1..];
    var r := [ls[0]] + rest;
    forall i, j | 0 <= i < j < |r| ensures r[i].order <= r[j].order {
      assert r[j] == rest[j - 1];
      if i > 0 {
        assert r[i] == rest[i - 1];
      } else {
        assert rest[j - 1] in rest;
      }
    }
  }

  /** `orderBy: asc(order)`: the same rows, ascending by `order`. */
  function SortByOrder(ls: seq<LessonRow>): (r: seq<LessonRow>)
    ensures SortedByOrder(r)
    ensures multiset(r) == multiset(ls)
  {
    if ls == [] then []
    else
      assert ls == [ls[0]] + ls[1..];
      InsertByOrder(ls[0], SortByOrder(ls[1..]))
  }

  /** `findFirst` on the course id. */
  function FindCourse(cs: seq<CourseRow>, id: string): (r: Option<CourseRow>)
    ensures r.Some? <==> CourseExists(cs, id)
    ensures r.Some? ==> r.value in cs && r.value.id == id
  {
    if cs == [] then None
    else if cs[0].id == id then Some(cs[0])
    else
      var rest := FindCourse(cs[1..], id);
      assert CourseExists(cs, id) <==> CourseExists(cs[1..], id) by {
        if CourseExists(cs, id) {
          var k :| 0 <= k < |cs| && cs[k].id == id;
          assert cs[1..][k - 1].id == id;
        }
        if CourseExists(cs[1..], id) {
          var k :| 0 <= k < |cs[1..]| && cs[1..][k].id == id;
          assert cs[k + 1].id == id;
        }
      }
      rest
  }

  /** A course row with its lessons attached. */
  datatype CourseWithLessons = CourseWithLessons(course: CourseRow, lessons: seq<LessonRow>)

  /** `getCourseById(id)`: null for an unknown id; otherwise the course with
      exactly its own lesson rows, ascending by `order`. */
  function GetCourseById(db: Db, id: string): (r: Option<CourseWithLessons>)
    ensures r.None? <==> !CourseExists(db.courses, id)
    ensures r.Some? ==> r.value.course in db.courses && r.value.course.id == id
    ensures r.Some? ==> SortedByOrder(r.value.lessons)
    ensures r.Some? ==> multiset(r.value.lessons) == multiset(LessonsOf(db.lessons, id))
    ensures r.Some? ==> forall x :: x in r.value.lessons <==> x in db.lessons && x.courseId == id
  {
    var course := FindCourse(db.courses, id);
    if course.None? then None
    else
      var ls := SortByOrder(LessonsOf(db.lessons, id));
      assert forall x :: x in ls <==> x in multiset(ls);
      assert forall x :: x in LessonsOf(db.lessons, id) <==> x in multiset(LessonsOf(db.lessons, id));
      Some(CourseWithLessons(course.value, ls))
  }

  // ---- getUserEnrollments ----

  /** An enrolment with its course joined in (`with: { course: true }`). */
  datatype EnrollmentWithCourse = EnrollmentWithCourse(enrollment: Enrollment, course: Option<CourseRow>)

  function EnrollmentsOf(es: seq<Enrollment>, cs: seq<CourseRow>, u: string): (r: seq<EnrollmentWithCourse>)
    ensures JoinedFor(r, es, cs, u)
  {
    if es == [] then []
    else
      var rest := EnrollmentsOf(es[1..], cs, u);
      if es[0].userId == u then
        var r := [EnrollmentWithCourse(es[0], FindCourse(cs, es[0].courseId))] + rest;
        JoinedCons(rest, es, cs, u);
        r
      else
        assert forall e :: e in es && e.userId == u ==> e in es[1..];
        rest
  }

  /** `r` is exactly the user's enrolments of `es`, each joined with its
      course: every entry is one of them, and each one has an entry. */
  predicate JoinedFor(r: seq<EnrollmentWithCourse>, es: seq<Enrollment>, cs: seq<CourseRow>, u: string) {
    && (forall k :: 0 <= k < |r| ==> r[k].enrollment in es && r[k].enrollment.userId == u)
    && (forall e :: e in es && e.userId == u ==> exists k :: 0 <= k < |r| && r[k].enrollment == e)
    && (forall k :: 0 <= k < |r| ==> r[k].course == FindCourse(cs, r[k].enrollment.courseId))
  }

  /** A user's enrolment at the head joins in front of the rest. */
  lemma JoinedCons(rest: seq<EnrollmentWithCourse>, es: seq<Enrollment>, cs: seq<CourseRow>, u: string)
    requires es != [] && es[0].userId == u
    requires JoinedFor(rest, es[1..], cs, u)
    ensures JoinedFor([EnrollmentWithCourse(es[0], FindCourse(cs, es[0].courseId))] + rest, es, cs, u)
  {
    var r := [EnrollmentWithCourse(es[0], FindCourse(cs, es[0].courseId))] + rest;
    assert forall k :: 1 <= k < |r| ==> r[k] == rest[k - 1];
    forall e | e in es && e.userId == u
      ensures exists k :: 0 <= k < |r| && r[k].enrollment == e
    {
      if e == es[0] {
        assert r[0].enrollment == e;
      } else {
        assert e in es[1..];
        var k :| 0 <= k < |rest| && rest[k].enrollment == e;
        assert r[k + 1].enrollment == e;
      }
    }
  }

  /** When every enrolment's course has a row, every joined course is found. */
  lemma JoinedCoursesExist(r: seq<EnrollmentWithCourse>, es: seq<Enrollment>, cs: seq<CourseRow>, u: string)
    requires JoinedFor(r, es, cs, u)
    requires forall j :: 0 <= j < |es| ==> CourseExists(cs, es[j].courseId)
    ensures forall k :: 0 <= k < |r| ==> r[k].course.Some? && r[k].course.value.id == r[k].enrollment.courseId
  {
    forall k | 0 <= k < |r| ensures r[k].course.Some? {
      var j :| 0 <= j < |es| && es[j] == r[k].enrollment;
      assert CourseExists(cs, es[j].courseId);
    }
  }

  /** `getUserEnrollments(userId)`: `[]` without a user; otherwise every
      enrolment of the user, each with its course, which always exists in a
      consistent store. */
  function GetUserEnrollments(db: Db, userId: Option<string>): (r: seq<EnrollmentWithCourse>)
    ensures !Present(userId) ==> r == []
    ensures Present(userId) ==>
              forall k :: 0 <= k < |r| ==> r[k].enrollment in db.enrollments && r[k].enrollment.userId == userId.value
    ensures Present(userId) ==>
              forall e :: e in db.enrollments && e.userId == userId.value ==> exists k :: 0 <= k < |r| && r[k].enrollment == e
    ensures Present(userId) && Consistent(db) ==>
              forall k :: 0 <= k < |r| ==> r[k].course.Some? && r[k].course.value.id == r[k].enrollment.courseId
  {
    if !Present(userId) then []
    else
      var r := EnrollmentsOf(db.enrollments, db.courses, userId.value);
      assert Consistent(db) ==> forall k :: 0 <= k < |r| ==> r[k].course.Some? && r[k].course.value.id == r[k].enrollment.courseId by {
        if Consistent(db) {
          JoinedCoursesExist(r, db.enrollments, db.courses, userId.value);
        }
      }
      r
  }

  // ---- getEnrollment / getUserCertificate ----

  function FindEnrollment(es: seq<Enrollment>, u: string, c: string): (r: Option<Enrollment>)
    ensures r.Some? <==> IsEnrolled(es, u, c)
    ensures r.Some? ==> r.value in es && r.value.userId == u && r.value.courseId == c
  {
    if es == [] then None
    else if es[0].userId == u && es[0].courseId == c then Some(es[0])
    else
      assert IsEnrolled(es, u, c) <==> IsEnrolled(es[1..], u, c) by {
        if IsEnrolled(es, u, c) {
          var k :| 0 <= k < |es| && es[k].userId == u && es[k].courseId == c;
          assert es[1..][k - 1] == es[k];
        }
        if IsEnrolled(es[1..], u, c) {
          var k :| 0 <= k < |es[1..]| && es[1..][k].userId == u && es[1..][k].courseId == c;
          assert es[k + 1] == es[1..][k];
        }
      }
      FindEnrollment(es[1..], u, c)
  }

  /** `getEnrollment(userId, courseId)`: null on a missing argument, else the
      matching row, which the unique key makes the only one. */
  function GetEnrollment(db: Db, userId: Option<string>, courseId: Option<string>): (r: Option<Enrollment>)
    ensures !Present(userId) || !Present(courseId) ==> r.None?
    ensures Present(userId) && Present(courseId) ==>
              (r.Some? <==> IsEnrolled(db.enrollments, userId.value, courseId.value))
    ensures r.Some? ==> r.value in db.enrollments && r.value.userId == userId.value && r.value.courseId == courseId.value
    ensures r.Some? && EnrollmentsKeyed(db.enrollments) ==>
              forall k :: (0 <= k < |db.enrollments| && db.enrollments[k].userId == userId.value
                           && db.enrollments[k].courseId == courseId.value) ==> db.enrollments[k] == r.value
  {
    if !Present(userId) || !Present(courseId) then None
    else
      var r := FindEnrollment(db.enrollments, userId.value, courseId.value);
      assert r.Some? && EnrollmentsKeyed(db.enrollments) ==>
        forall k :: (0 <= k < |db.enrollments| && db.enrollments[k].userId == userId.value
                     && db.enrollments[k].courseId == courseId.value) ==> db.enrollments[k] == r.value by {
        if r.Some? && EnrollmentsKeyed(db.enrollments) {
          var i :| 0 <= i < |db.enrollments| && db.enrollments[i] == r.value;
          forall k | 0 <= k < |db.enrollments| && db.enrollments[k].userId == userId.value
                     && db.enrollments[k].courseId == courseId.value
            ensures db.enrollments[k] == r.value
          {
            EnrollmentIsUnique(db.enrollments, userId.value, courseId.value, i, k);
          }
        }
      }
      r
  }

  function FindCertificate(cs: seq<Certificate>, u: string, c: string): (r: Option<Certificate>)
    ensures r.Some? <==> HasCertificate(cs, u, c)
    ensures r.Some? ==> r.value in cs && r.value.userId == u && r.value.courseId == c
  {
    if cs == [] then None
    else if cs[0].userId == u && cs[0].courseId == c then Some(cs[0])
    else
      assert HasCertificate(cs, u, c) <==> HasCertificate(cs[1..], u, c) by {
        if HasCertificate(cs, u, c) {
          var k :| 0 <= k < |cs| && cs[k].userId == u && cs[k].courseId == c;
          assert cs[1..][k - 1] == cs[k];
        }
        if HasCertificate(cs[1..], u, c) {
          var k :| 0 <= k < |cs[1..]| && cs[1..][k].userId == u && cs[1..][k].courseId == c;
          assert cs[k + 1] == cs[1..][k];
        }
      }
      FindCertificate(cs[1..], u, c)
  }

  /** `getUserCertificate(userId, courseId)`: like `getEnrollment`, over
      certificates. */
  function GetUserCertificate(db: Db, userId: Option<string>, courseId: Option<string>): (r: Option<Certificate>)
    ensures !Present(userId) || !Present(courseId) ==> r.None?
    ensures Present(userId) && Present(courseId) ==>
              (r.Some? <==> HasCertificate(db.certificates, userId.value, courseId.value))
    ensures r.Some? ==> r.value in db.certificates && r.value.userId == userId.value && r.value.courseId == courseId.value
    ensures r.Some? && CertificatesKeyed(db.certificates) ==>
              forall k :: (0 <= k < |db.certificates| && db.certificates[k].userId == userId.value
                           && db.certificates[k].courseId == courseId.value) ==> db.certificates[k] == r.value
  {
    if !Present(userId) || !Present(courseId) then None
    else
      var r := FindCertificate(db.certificates, userId.value, courseId.value);
      assert r.Some? && CertificatesKeyed(db.certificates) ==>
        forall k :: (0 <= k < |db.certificates| && db.certificates[k].userId == userId.value
                     && db.certificates[k].courseId == courseId.value) ==> db.certificates[k] == r.value by {
        if r.Some? && CertificatesKeyed(db.certificates) {
          var i :| 0 <= i < |db.certificates| && db.certificates[i] == r.value;
          forall k | 0 <= k < |db.certificates| && db.certificates[k].userId == userId.value
                     && db.certificates[k].courseId == courseId.value
            ensures db.certificates[k] == r.value
          {
            CertificateIsUnique(db.certificates, userId.value, courseId.value, i, k);
          }
        }
      }
      r
  }

  // ---- getCourseProgress ----

  /** The progress report; with a missing argument the object has only the
      first two fields, so the counts are absent. */
  datatype ProgressReport = ProgressReport(completedLessons: seq<string>, percentage: nat,
                                           totalLessons: Option<nat>, completedCount: Option<nat>)

  /** `completed.map(p => p.lessonId)`. */
  function LessonIdsOf(ps: seq<ProgressRow>): (ids: seq<string>)
    ensures |ids| == |ps|
    ensures forall i :: 0 <= i < |ps| ==> ids[i] == ps[i].lessonId
  {
    Keys(ps, (p: ProgressRow) => p.lessonId)
  }

  /** `getCourseProgress(userId, courseId)`. */
  function GetCourseProgress(db: Db, userId: Option<string>, courseId: Option<string>): (r: ProgressReport)
    ensures !Present(userId) || !Present(courseId) ==> r == ProgressReport([], 0, None, None)
    ensures Present(userId) && Present(courseId) ==>
              var rows := CompletedRows(db.progress, userId.value, courseId.value);
              && r.completedLessons == LessonIdsOf(rows)
              && r.completedCount == Some(|r.completedLessons|)
              && r.totalLessons == Some(|LessonsOf(db.lessons, courseId.value)|)
              && r.percentage == CourseActions.Percentage(r.completedCount.value, r.totalLessons.value)
  {
    if !Present(userId) || !Present(courseId) then ProgressReport([], 0, None, None)
    else
      var completed := CompletedRows(db.progress, userId.value, courseId.value);
      var total := |LessonsOf(db.lessons, courseId.value)|;
      ProgressReport(LessonIdsOf(completed), CourseActions.Percentage(|completed|, total), Some(total), Some(|completed|))
  }

  /** The lesson ids reported are exactly those of the user's completed rows
      for the course, whether or not such a lesson exists. */
  lemma ReportedIdsAreCompletedRows(db: Db, u: string, c: string, l: string)
    requires u != "" && c != ""
    ensures l in GetCourseProgress(db, Some(u), Some(c)).completedLessons <==>
              exists k :: 0 <= k < |db.progress| && ProgressFor(db.progress[k], u, c, l) && db.progress[k].completed
  {
    var rows := CompletedRows(db.progress, u, c);
    var ids := LessonIdsOf(rows);
    if l in ids {
      var i :| 0 <= i < |ids| && ids[i] == l;
      assert rows[i] in rows;
      var k :| 0 <= k < |db.progress| && db.progress[k] == rows[i];
    }
    if exists k :: 0 <= k < |db.progress| && ProgressFor(db.progress[k], u, c, l) && db.progress[k].completed {
      var k :| 0 <= k < |db.progress| && ProgressFor(db.progress[k], u, c, l) && db.progress[k].completed;
      assert db.progress[k] in rows;
      var i :| 0 <= i < |rows| && rows[i] == db.progress[k];
      assert ids[i] == l;
    }
  }

  /** Right after a successful `markLessonComplete`, the progress query
      reports the same counts and percentage the action returned. */
  lemma QueryAgreesWithAction(db: Db, u: string, c: string, l: string, newId: string, certId: string, now: nat,
                               fault: CourseActions.Fault)
    requires u != "" && c != ""
    requires CourseActions.MarkLessonComplete(db, Some(u), c, l, newId, certId, now, fault).result.Marked?
    ensures var o := CourseActions.MarkLessonComplete(db, Some(u), c, l, newId, certId, now, fault);
            var report := GetCourseProgress(o.db, Some(u), Some(c));
            && report.percentage == o.result.percentage
            && report.completedCount == Some(o.result.completedCount)
            && report.totalLessons == Some(o.result.totalLessons)
            && l in report.completedLessons
  {
    var o := CourseActions.MarkLessonComplete(db, Some(u), c, l, newId, certId, now, fault);
    ReportedIdsAreCompletedRows(o.db, u, c, l);
  }
}
