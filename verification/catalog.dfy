/** The course catalog: course -> lesson -> step, with bilingual fields
    (src/data/courses.js). Steps are a tagged union on their `type` field. */
module Catalog {
  import opened Common
  import opened Localized

  /** One answer of a quiz question. */
  datatype QuizOption = QuizOption(id: string, text: Text, isCorrect: bool)

  datatype Question = Question(id: string, text: Text, options: seq<QuizOption>)

  /** A lesson step. `action` and `targetId` of an interactive step are
      optional because the content may omit them; a missing one never
      matches an inbound event. */
  datatype Step =
    | Overview(id: nat, title: Text, content: Text, objectives: TextList)
    | Interactive(id: nat, instruction: Text, beforeExplanation: Option<Text>,
                  afterExplanation: Option<Text>, action: Option<string>, targetId: Option<string>)
    | Quiz(id: nat, title: Text, questions: seq<Question>)

  /** `isLocked` is the static flag carried by the content; the overview
      computes its own lock rule instead. */
  datatype Lesson = Lesson(id: string, title: Text, description: Text, duration: Text,
                           isLocked: bool, steps: seq<Step>)

  /** `price` is the decimal literal of the content, as text. */
  datatype Course = Course(id: string, title: Text, description: Text, icon: string,
                           color: string, price: string, lessons: seq<Lesson>)

  datatype Package = Package(id: string, title: string, description: string, price: string,
                             courseIds: seq<string>, icon: string, color: string)

  /** `currentStep?.targetId` as seen by the simulators: only interactive
      steps carry one. */
  function TargetOf(s: Step): (r: Option<string>)
    ensures r.Some? ==> s.Interactive?
  {
    if s.Interactive? then s.targetId else None
  }

  /** Number of options flagged correct. */
  function CorrectCount(opts: seq<QuizOption>): (c: nat)
    ensures c <= |opts|
  {
    if opts == [] then 0
    else (if opts[0].isCorrect then 1 else 0) + CorrectCount(opts[1..])
  }

  /** A question with exactly one correct option has that option somewhere
      in its list. */
  lemma {:induction false} SingleCorrectIsPresent(opts: seq<QuizOption>)
    requires CorrectCount(opts) == 1
    ensures exists i :: 0 <= i < |opts| && opts[i].isCorrect
  {
    if opts[0].isCorrect {
      assert opts[0].isCorrect;
    } else {
      SingleCorrectIsPresent(opts[1..]);
      var i :| 0 <= i < |opts[1..]| && opts[1..][i].isCorrect;
      assert opts[i + 1].isCorrect;
    }
  }

  // ---- Content invariants the fixture satisfies ----

  /** The option ids of a question, in order; the quiz tells options apart
      by id when it marks the selected one. */
  function OptionIds(opts: seq<QuizOption>): seq<string> {
    Keys(opts, (o: QuizOption) => o.id)
  }

  predicate QuestionWellFormed(q: Question) {
    CorrectCount(q.options) == 1
  }

  /** An interactive step expects a click on a named element. */
  predicate InteractiveWellFormed(s: Step) {
    s.Interactive? ==> s.action == Some("click") && s.targetId.Some? && s.targetId.value != ""
  }

  predicate StepWellFormed(s: Step) {
    && InteractiveWellFormed(s)
    && (s.Quiz? ==> forall q :: q in s.questions ==> QuestionWellFormed(q))
  }

  /** Steps start with an overview and are numbered 0, 1, 2, ... in order. */
  predicate StepsWellFormed(steps: seq<Step>) {
    && |steps| > 0
    && steps[0].Overview?
    && (forall i :: 0 <= i < |steps| ==> steps[i].id == i)
    && (forall i :: 0 <= i < |steps| ==> StepWellFormed(steps[i]))
  }

  function LessonIds(ls: seq<Lesson>): seq<string> {
    Keys(ls, (l: Lesson) => l.id)
  }

  /** The static lock flags agree with the lock rule applied to an empty
      completion set: only the first lesson is open. */
  predicate StaticLocksAgree(ls: seq<Lesson>) {
    forall i :: 0 <= i < |ls| ==> (ls[i].isLocked <==> i > 0)
  }

  predicate CourseWellFormed(c: Course) {
    && NoDuplicates(LessonIds(c.lessons))
    && StaticLocksAgree(c.lessons)
    && (forall l :: l in c.lessons ==> StepsWellFormed(l.steps))
  }

  function CourseIds(cs: seq<Course>): seq<string> {
    Keys(cs, (c: Course) => c.id)
  }

  /** Every package names only existing courses. */
  predicate PackagesResolve(ps: seq<Package>, cs: seq<Course>) {
    forall p, id :: p in ps && id in p.courseIds ==> id in CourseIds(cs)
  }
}
