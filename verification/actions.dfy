/** The two server actions (src/actions/course-actions.js) as functions from
    a store to a store and a result. The signed-in user, the fresh uuids
    and the clock are parameters. A statement the database rejects raises,
    and the action's `catch` turns that into a failure result; nothing
    wraps the statements in a transaction, so a later failure keeps an
    earlier statement's effect. */
module CourseActions {
  import opened Common
  import opened Percent
  import opened Store

  datatype Outcome<R> = Outcome(db: Db, result: R)

  /** A database error the store's constraints do not explain (a dropped
      connection, a timeout): `ThrowsAt(k)` makes the action's k-th database
      statement throw, counting from 0; `NoFault` lets every statement run.
      The action's `catch` turns the throw into a failure result, and the
      statements before it keep their effect. */
  datatype Fault = NoFault | ThrowsAt(statement: nat)

  /** `Unauthorized` is the error thrown before the `try`; the other two are
      the returned `{ success }` records. */
  datatype EnrollResult = EnrollUnauthorized | EnrollSucceeded | EnrollFailed

  datatype MarkResult =
    | MarkUnauthorized
    | MarkFailed
    | Marked(percentage: nat, completedCount: nat, totalLessons: nat, isFinished: bool)

  predicate EnrollmentIdTaken(es: seq<Enrollment>, id: string) {
    exists k :: 0 <= k < |es| && es[k].id == id
  }

  predicate ProgressIdTaken(ps: seq<ProgressRow>, id: string) {
    exists k :: 0 <= k < |ps| && ps[k].id == id
  }

  predicate CertificateIdTaken(cs: seq<Certificate>, id: string) {
    exists k :: 0 <= k < |cs| && cs[k].id == id
  }

  predicate HasCompletedProgress(ps: seq<ProgressRow>, u: string, c: string, l: string) {
    exists k :: 0 <= k < |ps| && ProgressFor(ps[k], u, c, l) && ps[k].completed
  }

  /** `Math.round(completed / total * 100)` when the course has lessons,
      else 0. Nothing caps it at 100. */
  function Percentage(completed: nat, total: nat): (p: nat)
    ensures total == 0 ==> p == 0
    ensures total > 0 ==> 2 * total * p <= 200 * completed + total < 2 * total * p + 2 * total
    ensures completed <= total ==> p <= 100
  {
    if total == 0 then 0
    else
      var p := RoundPercent(completed, total);
      assert completed <= total ==> p <= 100 by {
        if completed <= total {
          AtMostHundred(completed, total);
        }
      }
      p
  }

  // ---- enrollInCourse ----

  /** Appending a row with a fresh id and a fresh pair keeps the keys. */
  lemma AppendEnrollmentKeyed(es: seq<Enrollment>, e: Enrollment)
    requires EnrollmentsKeyed(es)
    requires !EnrollmentIdTaken(es, e.id) && !IsEnrolled(es, e.userId, e.courseId)
    ensures EnrollmentsKeyed(es + [e])
  {
    forall i, j | 0 <= i < j < |es + [e]|
      ensures (es + [e])[i].id != (es + [e])[j].id
      ensures !((es + [e])[i].userId == (es + [e])[j].userId && (es + [e])[i].courseId == (es + [e])[j].courseId)
    {
      assert (es + [e])[i] == es[i];
      if j == |es| {
        assert (es + [e])[j] == e;
      } else {
        assert (es + [e])[j] == es[j];
      }
    }
  }

  /** `enrollInCourse(courseId)`: insert with `ON CONFLICT DO NOTHING`. A
      row clashing with any unique key (the pair, or the primary key) is
      skipped and the call still succeeds; a missing user or course is a
      foreign-key error and the call fails, and so does a fault in the
      insert (statement 0). */
  function EnrollInCourse(db: Db, userId: Option<string>, courseId: string, newId: string, fault: Fault): (o: Outcome<EnrollResult>)
    ensures !Present(userId) ==> o == Outcome(db, EnrollUnauthorized)
    ensures Present(userId) ==> !o.result.EnrollUnauthorized?
    ensures Present(userId) && fault == ThrowsAt(0) ==> o == Outcome(db, EnrollFailed)
    ensures Present(userId) && fault != ThrowsAt(0)
            && (IsEnrolled(db.enrollments, userId.value, courseId) || EnrollmentIdTaken(db.enrollments, newId)) ==>
              o == Outcome(db, EnrollSucceeded)
    ensures Present(userId) && fault != ThrowsAt(0) && UserExists(db.users, userId.value) && CourseExists(db.courses, courseId) ==>
              o.result == EnrollSucceeded
    ensures o.result.EnrollFailed? ==>
              o.db == db && (fault == ThrowsAt(0) || !(UserExists(db.users, userId.value) && CourseExists(db.courses, courseId)))
    ensures Present(userId) && o.result.EnrollSucceeded? && !EnrollmentIdTaken(db.enrollments, newId) ==>
              IsEnrolled(o.db.enrollments, userId.value, courseId)
    ensures Present(userId) ==>
              o.db == db || o.db == db.(enrollments := db.enrollments + [Enrollment(newId, userId.value, courseId)])
    ensures Consistent(db) ==> Consistent(o.db)
  {
    if !Present(userId) then Outcome(db, EnrollUnauthorized)
    else if fault == ThrowsAt(0) then Outcome(db, EnrollFailed)
    else
      var u := userId.value;
      var row := Enrollment(newId, u, courseId);
      if IsEnrolled(db.enrollments, u, courseId) || EnrollmentIdTaken(db.enrollments, newId) then
        Outcome(db, EnrollSucceeded)
      else if !(UserExists(db.users, u) && CourseExists(db.courses, courseId)) then
        Outcome(db, EnrollFailed)
      else
        var es := db.enrollments + [row];
        assert es[|db.enrollments|] == row;
        assert Consistent(db) ==> Consistent(db.(enrollments := es)) by {
          if Consistent(db) {
            AppendEnrollmentKeyed(db.enrollments, row);
          }
        }
        Outcome(db.(enrollments := es), EnrollSucceeded)
  }

  /** Repeated enrolment leaves exactly one enrolment for the pair and keeps
      succeeding. */
  lemma EnrollTwiceIsOnce(db: Db, u: string, c: string, id1: string, id2: string)
    requires Consistent(db) && u != ""
    requires UserExists(db.users, u) && CourseExists(db.courses, c)
    requires !EnrollmentIdTaken(db.enrollments, id1)
    ensures var first := EnrollInCourse(db, Some(u), c, id1, NoFault);
            && first.result == EnrollSucceeded
            && EnrollInCourse(first.db, Some(u), c, id2, NoFault) == first
            && exists k :: 0 <= k < |first.db.enrollments|
                 && first.db.enrollments[k].userId == u && first.db.enrollments[k].courseId == c
                 && forall j :: (0 <= j < |first.db.enrollments| && first.db.enrollments[j].userId == u
                                  && first.db.enrollments[j].courseId == c) ==> j == k
  {
    var first := EnrollInCourse(db, Some(u), c, id1, NoFault);
    var es := first.db.enrollments;
    var k :| 0 <= k < |es| && es[k].userId == u && es[k].courseId == c;
    forall j | 0 <= j < |es| && es[j].userId == u && es[j].courseId == c
      ensures j == k
    {
      EnrollmentIsUnique(es, u, c, j, k);
    }
  }

  // ---- markLessonComplete ----

  /** Index of the progress row for the triple, searching from `from`. */
  function FindProgressFrom(ps: seq<ProgressRow>, u: string, c: string, l: string, from: nat): (r: Option<nat>)
    requires from <= |ps|
    ensures r.Some? ==> from <= r.value < |ps| && ProgressFor(ps[r.value], u, c, l)
    ensures r.None? ==> forall k :: from <= k < |ps| ==> !ProgressFor(ps[k], u, c, l)
    decreases |ps| - from
  {
    if from == |ps| then None
    else if ProgressFor(ps[from], u, c, l) then Some(from)
    else FindProgressFrom(ps, u, c, l, from + 1)
  }

  function FindProgress(ps: seq<ProgressRow>, u: string, c: string, l: string): (r: Option<nat>)
    ensures r.Some? ==> r.value < |ps| && ProgressFor(ps[r.value], u, c, l)
    ensures r.None? ==> forall k :: 0 <= k < |ps| ==> !ProgressFor(ps[k], u, c, l)
  {
    FindProgressFrom(ps, u, c, l, 0)
  }

  lemma AppendProgressKeyed(ps: seq<ProgressRow>, r: ProgressRow)
    requires ProgressKeyed(ps)
    requires !ProgressIdTaken(ps, r.id)
    requires forall k :: 0 <= k < |ps| ==> !ProgressFor(ps[k], r.userId, r.courseId, r.lessonId)
    ensures ProgressKeyed(ps + [r])
  {
    forall i, j | 0 <= i < j < |ps + [r]|
      ensures (ps + [r])[i].id != (ps + [r])[j].id
      ensures !ProgressFor((ps + [r])[j], (ps + [r])[i].userId, (ps + [r])[i].courseId, (ps + [r])[i].lessonId)
    {
      assert (ps + [r])[i] == ps[i];
      if j == |ps| {
        assert (ps + [r])[j] == r;
      } else {
        assert (ps + [r])[j] == ps[j];
      }
    }
  }

  /** The upsert on `(userId, courseId, lessonId)`: an existing row for the
      triple is set completed with the new time (keeping its id); otherwise
      a new completed row is inserted. The insert raises (None) when the
      fresh id is taken or the user or course is missing. */
  function UpsertProgress(db: Db, u: string, c: string, l: string, newId: string, now: nat): (r: Option<Db>)
    ensures r.Some? ==> r.value == db.(progress := r.value.progress)
    ensures r.Some? ==> HasCompletedProgress(r.value.progress, u, c, l)
    ensures FindProgress(db.progress, u, c, l).Some? ==>
              var k := FindProgress(db.progress, u, c, l).value;
              r == Some(db.(progress := db.progress[k := db.progress[k].(completed := true, completedAt := Some(now))]))
    ensures FindProgress(db.progress, u, c, l).None? ==>
              if ProgressIdTaken(db.progress, newId) || !(UserExists(db.users, u) && CourseExists(db.courses, c)) then r.None?
              else r == Some(db.(progress := db.progress + [ProgressRow(newId, u, c, l, true, Some(now))]))
    ensures Consistent(db) && r.Some? ==> Consistent(r.value)
  {
    var found := FindProgress(db.progress, u, c, l);
    if found.Some? then
      var k := found.value;
      var ps := db.progress[k := db.progress[k].(completed := true, completedAt := Some(now))];
      assert ps[k].completed && ProgressFor(ps[k], u, c, l);
      assert forall i :: 0 <= i < |ps| ==>
        (ps[i].id == db.progress[i].id && ps[i].userId == db.progress[i].userId
         && ps[i].courseId == db.progress[i].courseId && ps[i].lessonId == db.progress[i].lessonId);
      Some(db.(progress := ps))
    else if ProgressIdTaken(db.progress, newId) || !(UserExists(db.users, u) && CourseExists(db.courses, c)) then
      None
    else
      var row := ProgressRow(newId, u, c, l, true, Some(now));
      var ps := db.progress + [row];
      assert ps[|db.progress|] == row;
      assert Consistent(db) ==> Consistent(db.(progress := ps)) by {
        if Consistent(db) {
          AppendProgressKeyed(db.progress, row);
        }
      }
      Some(db.(progress := ps))
  }

  lemma AppendCertificateKeyed(cs: seq<Certificate>, r: Certificate)
    requires CertificatesKeyed(cs)
    requires !CertificateIdTaken(cs, r.id) && !HasCertificate(cs, r.userId, r.courseId)
    ensures CertificatesKeyed(cs + [r])
  {
    forall i, j | 0 <= i < j < |cs + [r]|
      ensures (cs + [r])[i].id != (cs + [r])[j].id
      ensures !((cs + [r])[i].userId == (cs + [r])[j].userId && (cs + [r])[i].courseId == (cs + [r])[j].courseId)
    {
      assert (cs + [r])[i] == cs[i];
      if j == |cs| {
        assert (cs + [r])[j] == r;
      } else {
        assert (cs + [r])[j] == cs[j];
      }
    }
  }

  /** The certificate insert with `ON CONFLICT DO NOTHING`: an existing
      certificate for the pair (or a clashing id) is kept untouched. */
  function InsertCertificate(db: Db, certId: string, u: string, c: string): (r: Option<Db>)
    ensures r.Some? ==> r.value == db.(certificates := r.value.certificates)
    ensures HasCertificate(db.certificates, u, c) || CertificateIdTaken(db.certificates, certId) ==> r == Some(db)
    ensures r.Some? && !CertificateIdTaken(db.certificates, certId) ==> HasCertificate(r.value.certificates, u, c)
    ensures r.Some? ==>
              (r.value.certificates == db.certificates
               || r.value.certificates == db.certificates + [Certificate(certId, u, c, 100)])
    ensures r.None? ==> !(UserExists(db.users, u) && CourseExists(db.courses, c))
    ensures Consistent(db) && r.Some? ==> Consistent(r.value)
  {
    if HasCertificate(db.certificates, u, c) || CertificateIdTaken(db.certificates, certId) then Some(db)
    else if !(UserExists(db.users, u) && CourseExists(db.courses, c)) then None
    else
      var cert := Certificate(certId, u, c, 100);
      var cs := db.certificates + [cert];
      assert cs[|db.certificates|] == cert;
      assert Consistent(db) ==> Consistent(db.(certificates := cs)) by {
        if Consistent(db) {
          AppendCertificateKeyed(db.certificates, cert);
        }
      }
      Some(db.(certificates := cs))
  }

  /** The part of `markLessonComplete` after the upsert, on the store `d`
      the upsert left: count the user's completed rows for the course
      (statement 1) and the course's lessons (statement 2), compute the
      percentage, and at exactly 100 insert a certificate (statement 3). */
  function Tally(d: Db, u: string, c: string, l: string, certId: string, fault: Fault): (o: Outcome<MarkResult>)
    ensures !o.result.MarkUnauthorized?
    ensures o.db == d.(certificates := o.db.certificates)
    ensures fault == ThrowsAt(1) || fault == ThrowsAt(2) ==> o == Outcome(d, MarkFailed)
    ensures o.result.MarkFailed? ==> o.db == d
    ensures o.result.Marked? ==>
              && o.result.completedCount == |CompletedRows(d.progress, u, c)|
              && o.result.totalLessons == |LessonsOf(d.lessons, c)|
              && o.result.percentage == Percentage(o.result.completedCount, o.result.totalLessons)
              && (o.result.isFinished <==> o.result.percentage == 100)
    ensures o.result.Marked? ==> fault.NoFault? || fault.statement == 0 || fault.statement > 3 || (fault.statement == 3 && o.result.percentage != 100)
    ensures !(o.result.Marked? && o.result.percentage == 100) ==> o.db.certificates == d.certificates
    ensures HasCertificate(d.certificates, u, c) ==> o.db.certificates == d.certificates
    ensures o.result.Marked? && o.result.percentage == 100 && !CertificateIdTaken(d.certificates, certId) ==>
              HasCertificate(o.db.certificates, u, c)
    ensures Consistent(d) ==> Consistent(o.db)
    ensures Consistent(d) && HasCompletedProgress(d.progress, u, c, l) && !(fault.ThrowsAt? && 1 <= fault.statement <= 3) ==>
              o.result.Marked?
  {
    if fault == ThrowsAt(1) || fault == ThrowsAt(2) then Outcome(d, MarkFailed)
    else
      var done := |CompletedRows(d.progress, u, c)|;
      var total := |LessonsOf(d.lessons, c)|;
      var percentage := Percentage(done, total);
      if percentage != 100 then Outcome(d, Marked(percentage, done, total, false))
      else Certify(d, u, c, l, certId, fault, done, total)
  }

  /** The 100% branch: the certificate insert (statement 3), then the
      success record. */
  function Certify(d: Db, u: string, c: string, l: string, certId: string, fault: Fault, done: nat, total: nat): (o: Outcome<MarkResult>)
    ensures fault == ThrowsAt(3) ==> o == Outcome(d, MarkFailed)
    ensures o.result == MarkFailed || o.result == Marked(100, done, total, true)
    ensures o.result.MarkFailed? ==> o.db == d
    ensures o.db == d.(certificates := o.db.certificates)
    ensures HasCertificate(d.certificates, u, c) ==> o.db.certificates == d.certificates
    ensures o.result.Marked? && !CertificateIdTaken(d.certificates, certId) ==> HasCertificate(o.db.certificates, u, c)
    ensures Consistent(d) ==> Consistent(o.db)
    ensures Consistent(d) && HasCompletedProgress(d.progress, u, c, l) && fault != ThrowsAt(3) ==> o.result.Marked?
  {
    if fault == ThrowsAt(3) then Outcome(d, MarkFailed)
    else
      var withCert := InsertCertificate(d, certId, u, c);
      assert Consistent(d) && HasCompletedProgress(d.progress, u, c, l) ==> withCert.Some? by {
        if Consistent(d) && HasCompletedProgress(d.progress, u, c, l) && !(HasCertificate(d.certificates, u, c) || CertificateIdTaken(d.certificates, certId)) {
          var k :| 0 <= k < |d.progress| && ProgressFor(d.progress[k], u, c, l) && d.progress[k].completed;
          assert UserExists(d.users, d.progress[k].userId);
        }
      }
      if withCert.None? then Outcome(d, MarkFailed)
      else Outcome(withCert.value, Marked(100, done, total, true))
  }

  /** `markLessonComplete(courseId, lessonId)`: the upsert (statement 0),
      then the tally. A fault in statement 1, 2 or 3 fails the call after
      the upsert has already written. */
  function MarkLessonComplete(db: Db, userId: Option<string>, courseId: string, lessonId: string,
                              newId: string, certId: string, now: nat, fault: Fault): (o: Outcome<MarkResult>)
    ensures !Present(userId) ==> o == Outcome(db, MarkUnauthorized)
    ensures Present(userId) ==> !o.result.MarkUnauthorized?
    ensures o.db == db.(progress := o.db.progress, certificates := o.db.certificates)
    ensures o.result.Marked? ==>
              && HasCompletedProgress(o.db.progress, userId.value, courseId, lessonId)
              && o.result.completedCount == |CompletedRows(o.db.progress, userId.value, courseId)|
              && o.result.totalLessons == |LessonsOf(db.lessons, courseId)|
              && o.result.percentage == Percentage(o.result.completedCount, o.result.totalLessons)
              && (o.result.isFinished <==> o.result.percentage == 100)
    ensures o.result.Marked? ==> fault.NoFault? || fault.statement > 3 || (fault.statement == 3 && o.result.percentage != 100)
    ensures !(o.result.Marked? && o.result.percentage == 100) ==> o.db.certificates == db.certificates
    ensures Present(userId) && HasCertificate(db.certificates, userId.value, courseId) ==>
              o.db.certificates == db.certificates
    ensures o.result.Marked? && o.result.percentage == 100 && !CertificateIdTaken(db.certificates, certId) ==>
              HasCertificate(o.db.certificates, userId.value, courseId)
    ensures Consistent(db) ==> Consistent(o.db)
    ensures Present(userId) && fault == ThrowsAt(0) ==> o == Outcome(db, MarkFailed)
    ensures Consistent(db) && o.result.MarkFailed? && !(fault.ThrowsAt? && 1 <= fault.statement <= 3) ==> o.db == db
    ensures Consistent(db) && o.result.MarkFailed? && o.db != db ==>
              && fault.ThrowsAt? && 1 <= fault.statement <= 3
              && o.db.certificates == db.certificates
              && HasCompletedProgress(o.db.progress, userId.value, courseId, lessonId)
    ensures Consistent(db) && Present(userId) && UserExists(db.users, userId.value) && CourseExists(db.courses, courseId)
            && (FindProgress(db.progress, userId.value, courseId, lessonId).Some? || !ProgressIdTaken(db.progress, newId)) ==>
              && (fault.NoFault? ==> o.result.Marked?)
              && (fault == ThrowsAt(1) || fault == ThrowsAt(2) ==>
                    o.result.MarkFailed? && HasCompletedProgress(o.db.progress, userId.value, courseId, lessonId))
  {
    if !Present(userId) then Outcome(db, MarkUnauthorized)
    else if fault == ThrowsAt(0) then Outcome(db, MarkFailed)
    else
      var up := UpsertProgress(db, userId.value, courseId, lessonId, newId, now);
      if up.None? then Outcome(db, MarkFailed)
      else Tally(up.value, userId.value, courseId, lessonId, certId, fault)
  }

  /** Marking a lesson the store already has completed succeeds without a
      fault and reports the counts the store already had. */
  lemma {:induction false} RemarkKeepsCounts(d: Db, u: string, c: string, l: string, newId: string, certId: string, now: nat)
    requires Consistent(d) && u != ""
    requires HasCompletedProgress(d.progress, u, c, l)
    ensures var o := MarkLessonComplete(d, Some(u), c, l, newId, certId, now, NoFault);
            && o.result.Marked?
            && o.result.completedCount == |CompletedRows(d.progress, u, c)|
            && o.result.totalLessons == |LessonsOf(d.lessons, c)|
  {
    var found := FindProgress(d.progress, u, c, l);
    var k :| 0 <= k < |d.progress| && ProgressFor(d.progress[k], u, c, l) && d.progress[k].completed;
    assert found.Some?;
    var row := d.progress[found.value];
    ProgressIsUnique(d.progress, u, c, l, k, found.value);
    var d2 := d.(progress := d.progress[found.value := row.(completed := true, completedAt := Some(now))]);
    assert UpsertProgress(d, u, c, l, newId, now) == Some(d2);
    CompletedRowsReplace(d.progress, found.value, row.(completed := true, completedAt := Some(now)), u, c);
    assert HasCompletedProgress(d2.progress, u, c, l) by {
      assert ProgressFor(d2.progress[found.value], u, c, l) && d2.progress[found.value].completed;
    }
  }

  /** Marking the same lesson twice reports the same counts and percentage
      the second time, with the fresh ids and time of the second call
      irrelevant. */
  lemma {:induction false} MarkTwiceSameCounts(db: Db, u: string, c: string, l: string,
                                               id1: string, cert1: string, now1: nat, fault1: Fault,
                                               id2: string, cert2: string, now2: nat)
    requires Consistent(db)
    requires MarkLessonComplete(db, Some(u), c, l, id1, cert1, now1, fault1).result.Marked?
    ensures var first := MarkLessonComplete(db, Some(u), c, l, id1, cert1, now1, fault1);
            var second := MarkLessonComplete(first.db, Some(u), c, l, id2, cert2, now2, NoFault);
            && second.result.Marked?
            && second.result.completedCount == first.result.completedCount
            && second.result.totalLessons == first.result.totalLessons
            && second.result.percentage == first.result.percentage
  {
    var first := MarkLessonComplete(db, Some(u), c, l, id1, cert1, now1, fault1);
    RemarkKeepsCounts(first.db, u, c, l, id2, cert2, now2);
  }

  /** After a successful call exactly one progress row exists for the
      triple, and it is completed. */
  lemma ExactlyOneProgressRow(db: Db, u: string, c: string, l: string, newId: string, certId: string, now: nat, fault: Fault)
    requires Consistent(db)
    requires MarkLessonComplete(db, Some(u), c, l, newId, certId, now, fault).result.Marked?
    ensures var ps := MarkLessonComplete(db, Some(u), c, l, newId, certId, now, fault).db.progress;
            exists k :: 0 <= k < |ps| && ProgressFor(ps[k], u, c, l) && ps[k].completed
              && forall j :: 0 <= j < |ps| && ProgressFor(ps[j], u, c, l) ==> j == k
  {
    var ps := MarkLessonComplete(db, Some(u), c, l, newId, certId, now, fault).db.progress;
    var k :| 0 <= k < |ps| && ProgressFor(ps[k], u, c, l) && ps[k].completed;
    forall j | 0 <= j < |ps| && ProgressFor(ps[j], u, c, l)
      ensures j == k
    {
      ProgressIsUnique(ps, u, c, l, j, k);
    }
  }

  /** A fault in the completed-rows select (statement 1) after the upsert
      has written: the call reports failure, yet the lesson is now completed
      in the store, and a retry succeeds. */
  lemma FaultAfterUpsertKeepsCompletion(db: Db, u: string, c: string, l: string, newId: string, certId: string, now: nat,
                                        retryId: string, retryCert: string, later: nat)
    requires Consistent(db) && u != ""
    requires UserExists(db.users, u) && CourseExists(db.courses, c)
    requires FindProgress(db.progress, u, c, l).Some? || !ProgressIdTaken(db.progress, newId)
    requires !HasCompletedProgress(db.progress, u, c, l)
    ensures var o := MarkLessonComplete(db, Some(u), c, l, newId, certId, now, ThrowsAt(1));
            && o.result == MarkFailed
            && o.db != db
            && HasCompletedProgress(o.db.progress, u, c, l)
            && MarkLessonComplete(o.db, Some(u), c, l, retryId, retryCert, later, NoFault).result.Marked?
  {
    var o := MarkLessonComplete(db, Some(u), c, l, newId, certId, now, ThrowsAt(1));
    var k :| 0 <= k < |o.db.progress| && ProgressFor(o.db.progress[k], u, c, l) && o.db.progress[k].completed;
    assert FindProgress(o.db.progress, u, c, l).Some?;
  }

  /** One user, one course with one lesson, and a completed progress row
      for a lesson that does not exist. */
  const OrphanDb: Db := Db([UserRow("u1", "a@b.c", "Ann")],
                           [CourseRow("c1", "T", "T", "D", "D", "i", "x", "1.00")],
                           [LessonRow("c1-l1", "c1", "l1", "T", "T", "D", "D", "5", "5", 0, [])],
                           [],
                           [ProgressRow("p1", "u1", "c1", "gone", true, Some(0))],
                           [])

  lemma OrphanDbConsistent()
    ensures Consistent(OrphanDb)
  {
    var db := OrphanDb;
    assert UserExists(db.users, "u1") by { assert db.users[0].id == "u1"; }
    assert CourseExists(db.courses, "c1") by { assert db.courses[0].id == "c1"; }
  }

  /** The same store once the real lesson is marked complete. */
  const OrphanDbMarked: Db := OrphanDb.(progress := OrphanDb.progress + [ProgressRow("p2", "u1", "c1", "l1", true, Some(1))])

  lemma OrphanUpsert()
    ensures UpsertProgress(OrphanDb, "u1", "c1", "l1", "p2", 1) == Some(OrphanDbMarked)
  {
    var db := OrphanDb;
    assert UserExists(db.users, "u1") by { assert db.users[0].id == "u1"; }
    assert CourseExists(db.courses, "c1") by { assert db.courses[0].id == "c1"; }
    assert FindProgress(db.progress, "u1", "c1", "l1").None?;
    assert !ProgressIdTaken(db.progress, "p2");
  }

  lemma OrphanCounts()
    ensures |CompletedRows(OrphanDbMarked.progress, "u1", "c1")| == 2
    ensures |LessonsOf(OrphanDbMarked.lessons, "c1")| == 1
  {
    var ps := OrphanDbMarked.progress;
    assert ps[1..][1..] == [];
    assert CompletedRows(ps, "u1", "c1") == ps;
    assert OrphanDbMarked.lessons[1..] == [];
    assert LessonsOf(OrphanDbMarked.lessons, "c1") == OrphanDbMarked.lessons;
  }

  /** Progress rows are not tied to the lessons table: one real lesson and
      one completed row naming a lesson that does not exist give 200%, which
      is not "finished" and issues no certificate. */
  lemma OrphanRowsPushPastHundred()
    ensures var o := MarkLessonComplete(OrphanDb, Some("u1"), "c1", "l1", "p2", "z1", 1, NoFault);
            && Consistent(OrphanDb)
            && o.result == Marked(200, 2, 1, false)
            && o.db.certificates == []
  {
    OrphanDbConsistent();
    OrphanUpsert();
    OrphanCounts();
    assert Percentage(2, 1) == 200;
  }
}
