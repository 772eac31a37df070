/** The catalog-to-table mapping of the seed script (src/db/seed-courses.ts):
    bilingual fields split into en/fr columns, a composite lesson row id,
    a running `order` counter, and upserts keyed by primary key. */
module Seed {
  import opened Common
  import opened Localized
  import opened Catalog
  import opened Store

  /** The en and fr column values of one field. */
  datatype Columns = Columns(en: string, fr: string)

  /** A plain string goes to both columns; a bilingual map gives `.en` and
      `.fr`. */
  function Split(t: Text): (c: Columns)
    ensures t.Plain? ==> c.en == c.fr == t.s
    ensures t.ByLang? ==> c == Columns(t.en, t.fr)
  {
    match t
    case Plain(s) => Columns(s, s)
    case ByLang(en, fr) => Columns(en, fr)
  }

  /** The en column is what the UI shows in English; the fr column is what
      it shows in French unless the French text is empty, in which case the
      UI falls back to English while the column keeps the empty text. */
  lemma SplitAgreesWithDisplay(t: Text)
    ensures Split(t).en == Resolve(t, "en")
    ensures (t.ByLang? ==> t.fr != "") ==> Split(t).fr == Resolve(t, "fr")
    ensures t.ByLang? && t.fr == "" && t.en != "" ==> Split(t).fr != Resolve(t, "fr")
  {
  }

  function CourseRowFor(c: Course): (r: CourseRow)
    ensures r.id == c.id && r.price == c.price && r.icon == c.icon && r.color == c.color
    ensures Columns(r.titleEn, r.titleFr) == Split(c.title)
    ensures Columns(r.descriptionEn, r.descriptionFr) == Split(c.description)
  {
    CourseRow(c.id, Split(c.title).en, Split(c.title).fr,
              Split(c.description).en, Split(c.description).fr, c.icon, c.color, c.price)
  }

  /** The lesson table's primary key: `${course.id}-${lesson.id}`. */
  function CompositeId(c: Course, l: Lesson): (key: string)
    ensures |key| == |c.id| + 1 + |l.id|
    ensures key[..|c.id|] == c.id && key[|c.id|] == '-' && key[|c.id| + 1..] == l.id
  {
    c.id + "-" + l.id
  }

  /** The composite key is never the short id it extends. */
  lemma CompositeIdIsNotLessonId(c: Course, l: Lesson)
    ensures CompositeId(c, l) != l.id
  {
    assert |CompositeId(c, l)| > |l.id|;
  }

  /** Different course/lesson pairs can share a composite key: course `a`
      with lesson `b-c` and course `a-b` with lesson `c` both give `a-b-c`. */
  lemma CompositeIdsCanCollide(c1: Course, l1: Lesson, c2: Course, l2: Lesson)
    requires c1.id == "a" && l1.id == "b-c" && c2.id == "a-b" && l2.id == "c"
    ensures c1.id != c2.id && CompositeId(c1, l1) == CompositeId(c2, l2)
  {
  }

  function LessonRowFor(c: Course, l: Lesson, order: int): (r: LessonRow)
    ensures r.id == CompositeId(c, l) && r.courseId == c.id && r.lessonId == l.id
    ensures r.order == order && r.steps == l.steps
    ensures Columns(r.titleEn, r.titleFr) == Split(l.title)
    ensures Columns(r.descriptionEn, r.descriptionFr) == Split(l.description)
    ensures Columns(r.durationEn, r.durationFr) == Split(l.duration)
  {
    LessonRow(CompositeId(c, l), c.id, l.id,
              Split(l.title).en, Split(l.title).fr,
              Split(l.description).en, Split(l.description).fr,
              Split(l.duration).en, Split(l.duration).fr,
              order, l.steps)
  }

  // ---- Upserts by primary key ----

  /** Every element of `xs` occurs in `ys`. */
  predicate AllIn(xs: seq<string>, ys: seq<string>) {
    forall x :: x in xs ==> x in ys
  }

  function CourseRowIds(cs: seq<CourseRow>): (ids: seq<string>)
    ensures |ids| == |cs|
    ensures forall i :: 0 <= i < |cs| ==> ids[i] == cs[i].id
  {
    Keys(cs, (c: CourseRow) => c.id)
  }

  function LessonRowIds(ls: seq<LessonRow>): (ids: seq<string>)
    ensures |ids| == |ls|
    ensures forall i :: 0 <= i < |ls| ==> ids[i] == ls[i].id
  {
    Keys(ls, (l: LessonRow) => l.id)
  }

  lemma CoursesKeyedIffDistinct(cs: seq<CourseRow>)
    ensures CoursesKeyed(cs) <==> NoDuplicates(CourseRowIds(cs))
  {
  }

  lemma LessonsKeyedIffDistinct(ls: seq<LessonRow>)
    ensures LessonsKeyed(ls) <==> NoDuplicates(LessonRowIds(ls))
  {
  }

  /** Position of the first occurrence. */
  function IndexOf(s: seq<string>, x: string): (r: Option<nat>)
    ensures r.Some? ==> r.value < |s| && s[r.value] == x
    ensures r.None? <==> x !in s
  {
    if s == [] then None
    else if s[0] == x then Some(0)
    else
      var rest := IndexOf(s[1..], x);
      assert x in s <==> x in s[1..];
      if rest.Some? then Some(rest.value + 1) else None
  }

  /** Course upsert: the conflict branch rewrites every column, so the row
      with that id becomes the new row; otherwise it is appended. */
  function UpsertCourseRow(cs: seq<CourseRow>, row: CourseRow): (r: seq<CourseRow>)
    ensures row in r
    ensures CourseRowIds(r) == if row.id in CourseRowIds(cs) then CourseRowIds(cs) else CourseRowIds(cs) + [row.id]
    ensures forall i :: 0 <= i < |cs| && cs[i].id != row.id ==> r[i] == cs[i]
  {
    var found := IndexOf(CourseRowIds(cs), row.id);
    if found.Some? then
      var r := cs[found.value := row];
      assert CourseRowIds(r) == CourseRowIds(cs);
      r
    else
      var r := cs + [row];
      assert CourseRowIds(r) == CourseRowIds(cs) + [row.id];
      r
  }

  /** The lesson conflict branch's `set`: every column except the keys
      `id`, `courseId` and `lessonId`, with the order the counter gives. */
  function Refreshed(prior: LessonRow, row: LessonRow, order: int): (r: LessonRow)
    ensures r.id == prior.id && r.courseId == prior.courseId && r.lessonId == prior.lessonId
    ensures r == row.(id := prior.id, courseId := prior.courseId, lessonId := prior.lessonId, order := order)
  {
    prior.(titleEn := row.titleEn, titleFr := row.titleFr,
           descriptionEn := row.descriptionEn, descriptionFr := row.descriptionFr,
           durationEn := row.durationEn, durationFr := row.durationFr,
           order := order, steps := row.steps)
  }

  /** Lesson upsert by primary key: the existing row is refreshed (its
      course and short id are kept), or the new row is appended. */
  function UpsertLessonRow(ls: seq<LessonRow>, row: LessonRow, updateOrder: int): (r: seq<LessonRow>)
    ensures LessonRowIds(r) == if row.id in LessonRowIds(ls) then LessonRowIds(ls) else LessonRowIds(ls) + [row.id]
    ensures forall i :: 0 <= i < |ls| ==> r[i].courseId == ls[i].courseId
    ensures forall i :: 0 <= i < |ls| && ls[i].id != row.id ==> r[i] == ls[i]
    ensures row.id !in LessonRowIds(ls) ==> r == ls + [row]
  {
    var found := IndexOf(LessonRowIds(ls), row.id);
    if found.Some? then
      var k := found.value;
      var r := ls[k := Refreshed(ls[k], row, updateOrder)];
      assert LessonRowIds(r) == LessonRowIds(ls);
      r
    else
      var r := ls + [row];
      assert LessonRowIds(r) == LessonRowIds(ls) + [row.id];
      r
  }

  /** After an upsert some row carries the key and the new steps, with the
      conflict branch's order or the inserted one. */
  lemma UpsertLessonRowPlaces(ls: seq<LessonRow>, row: LessonRow, updateOrder: int)
    ensures var r := UpsertLessonRow(ls, row, updateOrder);
            exists p :: 0 <= p < |r| && r[p].id == row.id && r[p].steps == row.steps
                        && (r[p].order == updateOrder || r[p].order == row.order)
  {
    var r := UpsertLessonRow(ls, row, updateOrder);
    var found := IndexOf(LessonRowIds(ls), row.id);
    if found.Some? {
      var k := found.value;
      assert r[k].id == row.id && r[k].steps == row.steps && r[k].order == updateOrder;
    } else {
      assert r[|ls|] == row;
    }
  }

  // ---- The lesson loop ----

  function CompositeIds(c: Course): (ids: seq<string>)
    ensures |ids| == |c.lessons|
    ensures forall j :: 0 <= j < |c.lessons| ==> ids[j] == CompositeId(c, c.lessons[j])
  {
    LessonKeys(c, c.lessons)
  }

  function LessonKeys(c: Course, ls: seq<Lesson>): (ids: seq<string>)
    ensures |ids| == |ls|
    ensures forall j :: 0 <= j < |ls| ==> ids[j] == CompositeId(c, ls[j])
  {
    if ls == [] then [] else [CompositeId(c, ls[0])] + LessonKeys(c, ls[1..])
  }

  /** The keys from lesson `i` on are lesson `i`'s key, then the rest. */
  lemma CompositeIdsFrom(c: Course, i: nat)
    requires i < |c.lessons|
    ensures CompositeIds(c)[i..] == [CompositeId(c, c.lessons[i])] + CompositeIds(c)[i + 1..]
  {
    assert CompositeIds(c)[i..][0] == CompositeId(c, c.lessons[i]);
    assert CompositeIds(c)[i..][1..] == CompositeIds(c)[i + 1..];
  }

  /** Lessons `i..` of a course: the insert uses the counter's value, the
      counter is incremented, and the conflict branch writes the counter
      minus one — the same value. Called with `order == i`. */
  function SeedLessons(ls: seq<LessonRow>, c: Course, i: nat, order: int): (r: seq<LessonRow>)
    requires i <= |c.lessons|
    ensures |r| >= |ls|
    ensures LessonRowIds(r)[..|ls|] == LessonRowIds(ls)
    ensures AllIn(CompositeIds(c)[i..], LessonRowIds(r))
    decreases |c.lessons| - i
  {
    if i == |c.lessons| then ls
    else
      var row := LessonRowFor(c, c.lessons[i], order);
      var next := order + 1;
      var ls' := UpsertLessonRow(ls, row, next - 1);
      var r := SeedLessons(ls', c, i + 1, next);
      CompositeIdsFrom(c, i);
      UpsertedIdsKept(LessonRowIds(ls), LessonRowIds(ls'), LessonRowIds(r), row.id, CompositeIds(c)[i + 1..]);
      r
  }

  /** An upsert keeps the ids before it and adds its key at most once;
      whatever later steps keep, the key and the earlier ids are still
      there. */
  lemma UpsertedIdsKept(before: seq<string>, after: seq<string>, final: seq<string>, key: string, later: seq<string>)
    requires after == if key in before then before else before + [key]
    requires |final| >= |after| && final[..|after|] == after
    requires AllIn(later, final)
    ensures |final| >= |before| && final[..|before|] == before
    ensures AllIn([key] + later, final)
  {
    assert final[..|before|] == final[..|after|][..|before|];
    assert key in after;
    assert key in final by {
      var k :| 0 <= k < |after| && after[k] == key;
      assert final[k] == after[k];
    }
  }

  /** One step of the loop, spelled out for the lemmas below. */
  lemma SeedLessonsStep(ls: seq<LessonRow>, c: Course, i: nat, order: int)
    requires i < |c.lessons|
    ensures var row := LessonRowFor(c, c.lessons[i], order);
            SeedLessons(ls, c, i, order) == SeedLessons(UpsertLessonRow(ls, row, order), c, i + 1, order + 1)
  {
  }

  /** When every remaining key is already a row, no row is added. */
  lemma {:induction false} SeedLessonsAddsNothingPresent(ls: seq<LessonRow>, c: Course, i: nat, order: int)
    requires i <= |c.lessons|
    requires AllIn(CompositeIds(c)[i..], LessonRowIds(ls))
    ensures |SeedLessons(ls, c, i, order)| == |ls|
    decreases |c.lessons| - i
  {
    if i < |c.lessons| {
      var row := LessonRowFor(c, c.lessons[i], order);
      var ls' := UpsertLessonRow(ls, row, order);
      CompositeIdsFrom(c, i);
      PresentKeyKeepsIds(LessonRowIds(ls), LessonRowIds(ls'), row.id, CompositeIds(c)[i + 1..]);
      SeedLessonsAddsNothingPresent(ls', c, i + 1, order + 1);
    }
  }

  /** Upserting a key that is already there changes no id, so the keys
      still to come are all present afterwards too. */
  lemma PresentKeyKeepsIds(before: seq<string>, after: seq<string>, key: string, later: seq<string>)
    requires after == if key in before then before else before + [key]
    requires AllIn([key] + later, before)
    ensures after == before
    ensures AllIn(later, after)
  {
    assert key in [key] + later;
  }

  /** Distinct lesson ids stay distinct: the lessons table keeps its key. */
  lemma {:induction false} SeedLessonsKeepsKey(ls: seq<LessonRow>, c: Course, i: nat, order: int)
    requires i <= |c.lessons|
    requires NoDuplicates(LessonRowIds(ls))
    ensures NoDuplicates(LessonRowIds(SeedLessons(ls, c, i, order)))
    decreases |c.lessons| - i
  {
    if i < |c.lessons| {
      var row := LessonRowFor(c, c.lessons[i], order);
      var ls' := UpsertLessonRow(ls, row, order);
      SeedLessonsStep(ls, c, i, order);
      if row.id !in LessonRowIds(ls) {
        AppendFreshKeepsNoDuplicates(LessonRowIds(ls), row.id);
      }
      SeedLessonsKeepsKey(ls', c, i + 1, order + 1);
    }
  }

  /** Course ids are never changed: refreshed rows keep their course, and
      the rows the loop appends name the course being seeded. */
  lemma {:induction false} SeedLessonsCourseIds(ls: seq<LessonRow>, c: Course, i: nat, order: int)
    requires i <= |c.lessons|
    ensures var r := SeedLessons(ls, c, i, order);
            && (forall p :: 0 <= p < |ls| ==> r[p].courseId == ls[p].courseId)
            && (forall p :: |ls| <= p < |r| ==> r[p].courseId == c.id)
    decreases |c.lessons| - i
  {
    if i < |c.lessons| {
      var row := LessonRowFor(c, c.lessons[i], order);
      var ls' := UpsertLessonRow(ls, row, order);
      SeedLessonsStep(ls, c, i, order);
      SeedLessonsCourseIds(ls', c, i + 1, order + 1);
      CourseIdsThroughUpsert(ls, row, order, SeedLessons(ls', c, i + 1, order + 1), c.id);
    }
  }

  /** If every row after an upsert keeps its course and every later row
      names `cid`, and the upserted row names `cid` too, the same holds
      measured from before the upsert. */
  lemma CourseIdsThroughUpsert(ls: seq<LessonRow>, row: LessonRow, o: int, r: seq<LessonRow>, cid: string)
    requires row.courseId == cid
    requires var ls' := UpsertLessonRow(ls, row, o);
             && |r| >= |ls'|
             && (forall p :: 0 <= p < |ls'| ==> r[p].courseId == ls'[p].courseId)
             && (forall p :: |ls'| <= p < |r| ==> r[p].courseId == cid)
    ensures forall p :: 0 <= p < |ls| ==> r[p].courseId == ls[p].courseId
    ensures forall p :: |ls| <= p < |r| ==> r[p].courseId == cid
  {
    var ls' := UpsertLessonRow(ls, row, o);
    assert |LessonRowIds(ls')| == |ls'|;
    if row.id !in LessonRowIds(ls) {
      assert ls'[|ls|] == row;
    }
  }

  /** Rows whose id no remaining lesson produces pass through unchanged. */
  lemma {:induction false} SeedLessonsKeepsOthers(ls: seq<LessonRow>, c: Course, i: nat, order: int, p: nat)
    requires i <= |c.lessons|
    requires p < |ls|
    requires ls[p].id !in CompositeIds(c)[i..]
    ensures SeedLessons(ls, c, i, order)[p] == ls[p]
    decreases |c.lessons| - i
  {
    if i < |c.lessons| {
      var row := LessonRowFor(c, c.lessons[i], order);
      CompositeIdsFrom(c, i);
      var ls' := UpsertLessonRow(ls, row, order);
      SeedLessonsStep(ls, c, i, order);
      SeedLessonsKeepsOthers(ls', c, i + 1, order + 1, p);
    }
  }

  /** Without composite-key collisions inside the course, each lesson's row
      carries its catalog position as `order` and its steps verbatim. */
  lemma {:induction false} SeedLessonsPlacesRows(ls: seq<LessonRow>, c: Course, i: nat, j: nat)
    requires i <= j < |c.lessons|
    requires NoDuplicates(CompositeIds(c))
    ensures var r := SeedLessons(ls, c, i, i);
            exists p :: 0 <= p < |r| && r[p].id == CompositeId(c, c.lessons[j])
                        && r[p].order == j && r[p].steps == c.lessons[j].steps
    decreases |c.lessons| - i
  {
    var row := LessonRowFor(c, c.lessons[i], i);
    var ls' := UpsertLessonRow(ls, row, i);
    SeedLessonsStep(ls, c, i, i);
    var r := SeedLessons(ls', c, i + 1, i + 1);
    if i == j {
      UpsertLessonRowPlaces(ls, row, i);
      var p :| 0 <= p < |ls'| && ls'[p].id == row.id && ls'[p].steps == c.lessons[j].steps && ls'[p].order == j;
      assert ls'[p].id !in CompositeIds(c)[i + 1..] by {
        forall q | i + 1 <= q < |c.lessons| ensures CompositeIds(c)[q] != row.id {
          assert CompositeIds(c)[i] == row.id;
        }
      }
      SeedLessonsKeepsOthers(ls', c, i + 1, i + 1, p);
      assert p < |r| && r[p] == ls'[p];
    } else {
      SeedLessonsPlacesRows(ls', c, i + 1, j);
    }
  }

  // ---- Whole catalog ----

  /** One course: its row, then its lessons with the counter from 0. */
  function SeedCourse(db: Db, c: Course): (r: Db)
    ensures r == db.(courses := r.courses, lessons := r.lessons)
    ensures |r.courses| >= |db.courses| && |r.lessons| >= |db.lessons|
    ensures CourseRowIds(r.courses)[..|db.courses|] == CourseRowIds(db.courses)
    ensures LessonRowIds(r.lessons)[..|db.lessons|] == LessonRowIds(db.lessons)
    ensures c.id in CourseRowIds(r.courses)
    ensures AllIn(CompositeIds(c), LessonRowIds(r.lessons))
  {
    assert CompositeIds(c)[0..] == CompositeIds(c);
    db.(courses := UpsertCourseRow(db.courses, CourseRowFor(c)),
        lessons := SeedLessons(db.lessons, c, 0, 0))
  }

  /** Seeding a course whose row and lesson rows all exist adds no row. */
  lemma SeedCourseAddsNothingPresent(db: Db, c: Course)
    requires c.id in CourseRowIds(db.courses)
    requires AllIn(CompositeIds(c), LessonRowIds(db.lessons))
    ensures |SeedCourse(db, c).courses| == |db.courses|
    ensures |SeedCourse(db, c).lessons| == |db.lessons|
  {
    assert CompositeIds(c)[0..] == CompositeIds(c);
    SeedLessonsAddsNothingPresent(db.lessons, c, 0, 0);
  }

  /** Seeding a course keeps the course and lesson keys. */
  lemma SeedCourseKeepsKeys(db: Db, c: Course)
    requires CoursesKeyed(db.courses) && LessonsKeyed(db.lessons)
    ensures CoursesKeyed(SeedCourse(db, c).courses) && LessonsKeyed(SeedCourse(db, c).lessons)
  {
    var cs := UpsertCourseRow(db.courses, CourseRowFor(c));
    CoursesKeyedIffDistinct(db.courses);
    CoursesKeyedIffDistinct(cs);
    if c.id !in CourseRowIds(db.courses) {
      AppendFreshKeepsNoDuplicates(CourseRowIds(db.courses), c.id);
    }
    LessonsKeyedIffDistinct(db.lessons);
    LessonsKeyedIffDistinct(SeedLessons(db.lessons, c, 0, 0));
    SeedLessonsKeepsKey(db.lessons, c, 0, 0);
  }

  /** A course upsert removes no course and adds the upserted one. */
  lemma UpsertCourseKeepsCourses(cs: seq<CourseRow>, row: CourseRow, id: string)
    ensures CourseExists(cs, id) ==> CourseExists(UpsertCourseRow(cs, row), id)
    ensures CourseExists(UpsertCourseRow(cs, row), row.id)
  {
    var r := UpsertCourseRow(cs, row);
    if CourseExists(cs, id) {
      var k :| 0 <= k < |cs| && cs[k].id == id;
      assert CourseRowIds(r)[k] == id;
    }
    var k :| 0 <= k < |r| && r[k] == row;
  }

  /** Seeding a course keeps every foreign key resolvable: no course row
      disappears, and every new lesson row names the seeded course. */
  lemma SeedCourseKeepsReferences(db: Db, c: Course)
    requires ReferencesResolve(db)
    ensures ReferencesResolve(SeedCourse(db, c))
  {
    var row := CourseRowFor(c);
    forall k | 0 <= k < |db.enrollments|
      ensures CourseExists(UpsertCourseRow(db.courses, row), db.enrollments[k].courseId)
    {
      UpsertCourseKeepsCourses(db.courses, row, db.enrollments[k].courseId);
    }
    forall k | 0 <= k < |db.progress|
      ensures CourseExists(UpsertCourseRow(db.courses, row), db.progress[k].courseId)
    {
      UpsertCourseKeepsCourses(db.courses, row, db.progress[k].courseId);
    }
    forall k | 0 <= k < |db.certificates|
      ensures CourseExists(UpsertCourseRow(db.courses, row), db.certificates[k].courseId)
    {
      UpsertCourseKeepsCourses(db.courses, row, db.certificates[k].courseId);
    }
    SeedLessonsReferenceCourses(db, c);
  }

  /** The lesson half of the previous lemma. */
  lemma SeedLessonsReferenceCourses(db: Db, c: Course)
    requires forall k :: 0 <= k < |db.lessons| ==> CourseExists(db.courses, db.lessons[k].courseId)
    ensures var r := SeedCourse(db, c);
            forall k :: 0 <= k < |r.lessons| ==> CourseExists(r.courses, r.lessons[k].courseId)
  {
    var row := CourseRowFor(c);
    var courses := UpsertCourseRow(db.courses, row);
    var lessons := SeedLessons(db.lessons, c, 0, 0);
    assert SeedCourse(db, c).courses == courses && SeedCourse(db, c).lessons == lessons;
    UpsertCourseKeepsCourses(db.courses, row, c.id);
    assert CourseExists(courses, c.id);
    SeedLessonsCourseIds(db.lessons, c, 0, 0);
    forall k | 0 <= k < |lessons| ensures CourseExists(courses, lessons[k].courseId) {
      if k < |db.lessons| {
        assert lessons[k].courseId == db.lessons[k].courseId;
        UpsertCourseKeepsCourses(db.courses, row, db.lessons[k].courseId);
      } else {
        assert lessons[k].courseId == c.id;
      }
    }
  }

  /** Seeding a course keeps every declared constraint. */
  lemma SeedCourseKeepsConsistent(db: Db, c: Course)
    requires Consistent(db)
    ensures Consistent(SeedCourse(db, c))
  {
    SeedCourseKeepsKeys(db, c);
    SeedCourseKeepsReferences(db, c);
  }

  /** All lesson keys of a list of courses. */
  function AllCompositeIds(cs: seq<Course>): (ids: seq<string>)
    ensures forall k :: 0 <= k < |cs| ==> AllIn(CompositeIds(cs[k]), ids)
  {
    if cs == [] then [] else CompositeIds(cs[0]) + AllCompositeIds(cs[1..])
  }

  /** Every course in catalog order. */
  function SeedAll(db: Db, cs: seq<Course>): (r: Db)
    ensures r == db.(courses := r.courses, lessons := r.lessons)
    ensures AllIn(CourseRowIds(db.courses), CourseRowIds(r.courses))
    ensures AllIn(LessonRowIds(db.lessons), LessonRowIds(r.lessons))
    ensures AllIn(CourseIds(cs), CourseRowIds(r.courses))
    ensures AllIn(AllCompositeIds(cs), LessonRowIds(r.lessons))
    decreases |cs|
  {
    if cs == [] then db
    else
      var first := SeedCourse(db, cs[0]);
      assert CourseIds(cs) == [cs[0].id] + CourseIds(cs[1..]);
      SeedAll(first, cs[1..])
  }

  /** A seed run keeps every declared constraint. */
  lemma {:induction false} SeedAllKeepsConsistent(db: Db, cs: seq<Course>)
    requires Consistent(db)
    ensures Consistent(SeedAll(db, cs))
    decreases |cs|
  {
    if cs != [] {
      SeedCourseKeepsConsistent(db, cs[0]);
      SeedAllKeepsConsistent(SeedCourse(db, cs[0]), cs[1..]);
    }
  }

  /** Seeding when every key is already present adds no row. */
  lemma {:induction false} SeedAllAddsNothingPresent(db: Db, cs: seq<Course>)
    requires AllIn(CourseIds(cs), CourseRowIds(db.courses))
    requires AllIn(AllCompositeIds(cs), LessonRowIds(db.lessons))
    ensures |SeedAll(db, cs).courses| == |db.courses|
    ensures |SeedAll(db, cs).lessons| == |db.lessons|
    decreases |cs|
  {
    if cs != [] {
      assert CourseIds(cs) == [cs[0].id] + CourseIds(cs[1..]);
      var first := SeedCourse(db, cs[0]);
      SeedCourseAddsNothingPresent(db, cs[0]);
      assert CourseRowIds(first.courses) == CourseRowIds(db.courses);
      assert LessonRowIds(first.lessons) == LessonRowIds(db.lessons);
      SeedAllAddsNothingPresent(first, cs[1..]);
    }
  }

  /** Seeding again adds no course row and no lesson row: every key it
      writes is already present, so every statement takes the conflict
      branch. */
  lemma ReseedAddsNoRows(db: Db, cs: seq<Course>)
    ensures var once := SeedAll(db, cs);
            var twice := SeedAll(once, cs);
            |twice.courses| == |once.courses| && |twice.lessons| == |once.lessons|
  {
    SeedAllAddsNothingPresent(SeedAll(db, cs), cs);
  }
}
