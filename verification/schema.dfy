/** The relational store (src/db/schema.ts) as sequences of rows, with the
    primary keys, the declared unique keys and the foreign keys as
    predicates. Timestamps are opaque numbers; `enrolledAt`, `issuedAt`,
    `createdAt` and `updatedAt` are not observed by the model and are not
    stored. */
module Store {
  import opened Common
  import Catalog

  datatype UserRow = UserRow(id: string, email: string, name: string)

  /** `price` is the decimal column as text. */
  datatype CourseRow = CourseRow(id: string, titleEn: string, titleFr: string,
                                 descriptionEn: string, descriptionFr: string,
                                 icon: string, color: string, price: string)

  /** `id` is the table-wide key; `lessonId` is the short id within a
      course; `steps` is the JSON column, kept as the catalog's steps. */
  datatype LessonRow = LessonRow(id: string, courseId: string, lessonId: string,
                                 titleEn: string, titleFr: string,
                                 descriptionEn: string, descriptionFr: string,
                                 durationEn: string, durationFr: string,
                                 order: int, steps: seq<Catalog.Step>)

  datatype Enrollment = Enrollment(id: string, userId: string, courseId: string)

  /** `lessonId` references no table: any text is accepted. */
  datatype ProgressRow = ProgressRow(id: string, userId: string, courseId: string, lessonId: string,
                                     completed: bool, completedAt: Option<nat>)

  datatype Certificate = Certificate(id: string, userId: string, courseId: string, progressPercentage: int)

  datatype Db = Db(users: seq<UserRow>, courses: seq<CourseRow>, lessons: seq<LessonRow>,
                   enrollments: seq<Enrollment>, progress: seq<ProgressRow>,
                   certificates: seq<Certificate>)

  /** A progress row inserted with only its keys takes the column defaults:
      not completed, no completion time. */
  function ProgressWithDefaults(id: string, userId: string, courseId: string, lessonId: string): (r: ProgressRow)
    ensures !r.completed && r.completedAt.None?
    ensures r.id == id && r.userId == userId && r.courseId == courseId && r.lessonId == lessonId
  {
    ProgressRow(id, userId, courseId, lessonId, false, None)
  }

  // ---- Existence ----

  predicate UserExists(us: seq<UserRow>, u: string) {
    exists k :: 0 <= k < |us| && us[k].id == u
  }

  predicate CourseExists(cs: seq<CourseRow>, c: string) {
    exists k :: 0 <= k < |cs| && cs[k].id == c
  }

  predicate IsEnrolled(es: seq<Enrollment>, u: string, c: string) {
    exists k :: 0 <= k < |es| && es[k].userId == u && es[k].courseId == c
  }

  predicate HasCertificate(cs: seq<Certificate>, u: string, c: string) {
    exists k :: 0 <= k < |cs| && cs[k].userId == u && cs[k].courseId == c
  }

  predicate ProgressFor(r: ProgressRow, u: string, c: string, l: string) {
    r.userId == u && r.courseId == c && r.lessonId == l
  }

  // ---- Keys ----

  predicate UsersKeyed(us: seq<UserRow>) {
    forall i, j :: 0 <= i < j < |us| ==> us[i].id != us[j].id && us[i].email != us[j].email
  }

  predicate CoursesKeyed(cs: seq<CourseRow>) {
    forall i, j :: 0 <= i < j < |cs| ==> cs[i].id != cs[j].id
  }

  predicate LessonsKeyed(ls: seq<LessonRow>) {
    forall i, j :: 0 <= i < j < |ls| ==> ls[i].id != ls[j].id
  }

  /** Primary key and the unique `(userId, courseId)` pair. */
  predicate EnrollmentsKeyed(es: seq<Enrollment>) {
    forall i, j :: 0 <= i < j < |es| ==>
      es[i].id != es[j].id && !(es[i].userId == es[j].userId && es[i].courseId == es[j].courseId)
  }

  /** Primary key and the unique `(userId, courseId, lessonId)` triple. */
  predicate ProgressKeyed(ps: seq<ProgressRow>) {
    forall i, j :: 0 <= i < j < |ps| ==>
      ps[i].id != ps[j].id && !ProgressFor(ps[j], ps[i].userId, ps[i].courseId, ps[i].lessonId)
  }

  /** Primary key and the unique `(userId, courseId)` pair. */
  predicate CertificatesKeyed(cs: seq<Certificate>) {
    forall i, j :: 0 <= i < j < |cs| ==>
      cs[i].id != cs[j].id && !(cs[i].userId == cs[j].userId && cs[i].courseId == cs[j].courseId)
  }

  /** Every row's user and course exist (cascading deletes keep it so). */
  predicate ReferencesResolve(db: Db) {
    && (forall k :: 0 <= k < |db.lessons| ==> CourseExists(db.courses, db.lessons[k].courseId))
    && (forall k :: 0 <= k < |db.enrollments| ==>
          UserExists(db.users, db.enrollments[k].userId) && CourseExists(db.courses, db.enrollments[k].courseId))
    && (forall k :: 0 <= k < |db.progress| ==>
          UserExists(db.users, db.progress[k].userId) && CourseExists(db.courses, db.progress[k].courseId))
    && (forall k :: 0 <= k < |db.certificates| ==>
          UserExists(db.users, db.certificates[k].userId) && CourseExists(db.courses, db.certificates[k].courseId))
  }

  /** Every constraint the schema declares holds. */
  predicate Consistent(db: Db) {
    && UsersKeyed(db.users)
    && CoursesKeyed(db.courses)
    && LessonsKeyed(db.lessons)
    && EnrollmentsKeyed(db.enrollments)
    && ProgressKeyed(db.progress)
    && CertificatesKeyed(db.certificates)
    && ReferencesResolve(db)
  }

  /** Under the unique keys a matching enrollment is the only one. */
  lemma EnrollmentIsUnique(es: seq<Enrollment>, u: string, c: string, i: nat, j: nat)
    requires EnrollmentsKeyed(es)
    requires i < |es| && j < |es|
    requires es[i].userId == u && es[i].courseId == c && es[j].userId == u && es[j].courseId == c
    ensures i == j
  {
  }

  lemma ProgressIsUnique(ps: seq<ProgressRow>, u: string, c: string, l: string, i: nat, j: nat)
    requires ProgressKeyed(ps)
    requires i < |ps| && j < |ps|
    requires ProgressFor(ps[i], u, c, l) && ProgressFor(ps[j], u, c, l)
    ensures i == j
  {
  }

  lemma CertificateIsUnique(cs: seq<Certificate>, u: string, c: string, i: nat, j: nat)
    requires CertificatesKeyed(cs)
    requires i < |cs| && j < |cs|
    requires cs[i].userId == u && cs[i].courseId == c && cs[j].userId == u && cs[j].courseId == c
    ensures i == j
  {
  }

  // ---- Selections ----

  /** `findMany` over progress rows of a user and course with
      `completed = true`, in table order. */
  function CompletedRows(ps: seq<ProgressRow>, u: string, c: string): (r: seq<ProgressRow>)
    ensures forall x :: x in r <==> x in ps && x.userId == u && x.courseId == c && x.completed
    ensures |r| <= |ps|
  {
    if ps == [] then []
    else
      var rest := CompletedRows(ps[1..], u, c);
      assert forall x :: x in ps <==> x == ps[0] || x in ps[1..];
      if ps[0].userId == u && ps[0].courseId == c && ps[0].completed then [ps[0]] + rest else rest
  }

  /** Replacing one row by a row that is selected exactly when the old one
      was leaves the number of selected rows unchanged. */
  lemma {:induction false} CompletedRowsReplace(ps: seq<ProgressRow>, k: nat, r: ProgressRow, u: string, c: string)
    requires k < |ps|
    requires (ps[k].userId == u && ps[k].courseId == c && ps[k].completed) <==> (r.userId == u && r.courseId == c && r.completed)
    ensures |CompletedRows(ps[k := r], u, c)| == |CompletedRows(ps, u, c)|
  {
    if k == 0 {
      assert ps[k := r][1..] == ps[1..];
    } else {
      assert ps[k := r][1..] == ps[1..][k - 1 := r];
      CompletedRowsReplace(ps[1..], k - 1, r, u, c);
    }
  }

  /** `findMany` over the lessons table by course, in table order. */
  function LessonsOf(ls: seq<LessonRow>, c: string): (r: seq<LessonRow>)
    ensures forall x :: x in r <==> x in ls && x.courseId == c
    ensures |r| <= |ls|
  {
    if ls == [] then []
    else
      var rest := LessonsOf(ls[1..], c);
      assert forall x :: x in ls <==> x == ls[0] || x in ls[1..];
      if ls[0].courseId == c then [ls[0]] + rest else rest
  }
}
