/** How the pieces meet: the simulator's click reports drive the lesson
    player (src/components/LessonPlayer/LessonPlayer.js passes its
    `handleAction` as the simulator's `onAction`), the player's completion
    signal goes to the settings store's `completeLesson`, and the course
    overview reads that store's list to decide which lessons are open. */
module Walkthrough {
  import opened Common
  import opened Catalog
  import opened Highlight
  import opened LessonPlayer
  import QuizMachine
  import Settings
  import CourseOverview
  import Fixture
  import Win11

  // ---- From the player to the settings store ----

  /** Every lesson id the player reported, passed to `completeLesson` in
      order. */
  function Report(s: Settings.Settings, finished: seq<string>): (r: Settings.Settings)
    ensures forall id :: id in finished ==> id in Settings.ExposedCompleted(r)
    ensures forall id :: id in Settings.ExposedCompleted(s) ==> id in Settings.ExposedCompleted(r)
    ensures forall id :: id in Settings.ExposedCompleted(r) ==> id in Settings.ExposedCompleted(s) || id in finished
    ensures finished == [] ==> r == s
    decreases |finished|
  {
    if finished == [] then s
    else
      var next := Settings.CompleteLesson(s, finished[0]);
      assert forall id :: id in finished <==> id == finished[0] || id in finished[1..];
      Report(next, finished[1..])
  }

  /** Playing a lesson until the player reports it finished opens the next
      lesson of its course on the overview. */
  lemma FinishingUnlocksNext(c: Course, i: nat, narration: string, s: PlayerState, events: seq<Event>,
                             settings: Settings.Settings)
    requires i + 1 < |c.lessons|
    requires Valid(c.lessons[i], s)
    requires c.lessons[i].id in Run(c.lessons[i], narration, s, events).finished
    ensures var after := Report(settings, Run(c.lessons[i], narration, s, events).finished);
            && !CourseOverview.IsLocked(c.lessons, Settings.ExposedCompleted(after), i + 1)
            && CourseOverview.LessonClick(c.lessons, Settings.ExposedCompleted(after), i + 1) == Some(c.lessons[i + 1])
  {
  }

  /** A lesson without a quiz never reports itself finished, so playing it
      leaves the settings store as it was, whatever the learner does. */
  lemma QuizlessLessonReportsNothing(lesson: Lesson, narration: string, s: PlayerState, events: seq<Event>,
                                     settings: Settings.Settings)
    requires Valid(lesson, s) && !HasQuiz(lesson)
    ensures Report(settings, Run(lesson, narration, s, events).finished) == settings
  {
  }

  /** In the Windows course the second lesson is a single overview step, so
      no amount of playing it opens the third lesson. */
  lemma ManagingFilesKeepsThirdLocked(narration: string, s: PlayerState, events: seq<Event>,
                                      settings: Settings.Settings)
    requires Valid(Fixture.ManagingFiles, s)
    requires "managing-files" !in Settings.ExposedCompleted(settings)
    ensures var after := Report(settings, Run(Fixture.ManagingFiles, narration, s, events).finished);
            CourseOverview.IsLocked(Fixture.Windows11.lessons, Settings.ExposedCompleted(after), 2)
  {
    assert !HasQuiz(Fixture.ManagingFiles) by {
      assert |Fixture.ManagingFiles.steps| == 1 && Fixture.ManagingFiles.steps[0].Overview?;
    }
    QuizlessLessonReportsNothing(Fixture.ManagingFiles, narration, s, events, settings);
    assert Fixture.Windows11.lessons[1].id == "managing-files";
  }

  // ---- Runs ----

  /** Running two event lists one after the other is running their
      concatenation. */
  lemma {:induction false} RunAppend(lesson: Lesson, narration: string, s: PlayerState, a: seq<Event>, b: seq<Event>)
    requires Valid(lesson, s)
    ensures var first := Run(lesson, narration, s, a);
            var second := Run(lesson, narration, first.state, b);
            Run(lesson, narration, s, a + b) == Trace(second.state, first.finished + second.finished)
    decreases |a|
  {
    if a == [] {
      assert a + b == b;
    } else {
      var head := Apply(lesson, narration, s, a[0]);
      AppendFront(a, b);
      RunAppend(lesson, narration, head.state, a[1..], b);
      var prefix: seq<string> := if head.signal.LessonFinished? then [head.signal.lessonId] else [];
      var first := Run(lesson, narration, head.state, a[1..]);
      var second := Run(lesson, narration, first.state, b);
      AppendAssoc(prefix, first.finished, second.finished);
    }
  }

  /** "Start Lesson" on an overview step with no timer pending: the next
      step, feedback cleared, nothing reported. */
  lemma StartLesson(lesson: Lesson, narration: string, s: PlayerState, rest: seq<Event>)
    requires Valid(lesson, s) && s.timerRef.None?
    requires CurrentStep(lesson, s).Overview? && s.index + 1 < |lesson.steps|
    ensures Run(lesson, narration, s, [NextClicked] + rest)
            == Run(lesson, narration, s.(index := s.index + 1, feedback := None), rest)
  {
    assert ([NextClicked] + rest)[1..] == rest;
    assert Apply(lesson, narration, s, NextClicked) == Reaction(s.(index := s.index + 1, feedback := None), Silent);
  }

  /** The click the current interactive step asks for, followed by the
      auto-advance it arms: the next step, feedback cleared, one timer id
      used, nothing else changed and nothing reported. */
  lemma ClickThenAdvance(lesson: Lesson, narration: string, s: PlayerState)
    requires Valid(lesson, s) && !s.completed && s.advances == [] && s.timerRef.None?
    requires CurrentStep(lesson, s).Interactive?
    requires CurrentStep(lesson, s).action.Some? && CurrentStep(lesson, s).targetId.Some?
    requires s.index + 1 < |lesson.steps|
    ensures var step := CurrentStep(lesson, s);
            var r1 := Apply(lesson, narration, s, SimulatorAction(step.action.value, step.targetId.value));
            var r2 := Apply(lesson, narration, r1.state, AdvanceFires(s.nextTimerId));
            && r1.signal == Silent && r2.signal == Silent
            && r2.state == s.(index := s.index + 1, feedback := None, nextTimerId := s.nextTimerId + 1)
  {
    var step := CurrentStep(lesson, s);
    var r1 := Apply(lesson, narration, s, SimulatorAction(step.action.value, step.targetId.value));
    var armed := PendingAdvance(s.nextTimerId, s.index, AutoAdvanceDelay(step, narration));
    assert r1.state.advances == [armed];
    assert r1.state.advances[0].id == s.nextTimerId;
    assert FindAdvance(r1.state.advances, s.nextTimerId) == armed;
    assert Cancel(r1.state.advances, s.nextTimerId) == [] by {
      assert [armed][1..] == [];
    }
  }

  /** The same pair of events inside a run. */
  lemma RunClickThenAdvance(lesson: Lesson, narration: string, s: PlayerState, rest: seq<Event>)
    requires Valid(lesson, s) && !s.completed && s.advances == [] && s.timerRef.None?
    requires CurrentStep(lesson, s).Interactive?
    requires CurrentStep(lesson, s).action.Some? && CurrentStep(lesson, s).targetId.Some?
    requires s.index + 1 < |lesson.steps|
    ensures var step := CurrentStep(lesson, s);
            Run(lesson, narration, s, [SimulatorAction(step.action.value, step.targetId.value), AdvanceFires(s.nextTimerId)] + rest)
            == Run(lesson, narration, s.(index := s.index + 1, feedback := None, nextTimerId := s.nextTimerId + 1), rest)
  {
    ClickThenAdvance(lesson, narration, s);
    var step := CurrentStep(lesson, s);
    var es := [SimulatorAction(step.action.value, step.targetId.value), AdvanceFires(s.nextTimerId)] + rest;
    assert es[0] == SimulatorAction(step.action.value, step.targetId.value);
    assert es[1..] == [AdvanceFires(s.nextTimerId)] + rest;
    assert es[1..][1..] == rest;
  }

  // ---- The first lesson, end to end ----

  /** A simulator report as the player receives it. */
  function Reported(e: Emission): Event {
    SimulatorAction(e.action, e.targetId)
  }

  /** Each report followed by the auto-advance it arms; the player numbers
      its timers from `firstTimer` on. */
  function WithAdvances(es: seq<Emission>, firstTimer: nat): (r: seq<Event>)
    ensures |r| == 2 * |es|
    decreases |es|
  {
    if es == [] then [] else [Reported(es[0]), AdvanceFires(firstTimer)] + WithAdvances(es[1..], firstTimer + 1)
  }

  /** The three clicks of the first lesson on the Windows desktop. */
  const DesktopClicks: seq<Win11.Control> := [Win11.StartButton, Win11.StartMenuSettings, Win11.CloseSettings]

  /** Both quiz answers right: the Windows icon, then the X. */
  const QuizAnswers: seq<Event> := [OptionClicked(0), NextQuestionClicked, OptionClicked(1), NextQuestionClicked]

  /** The player after the three interactive steps: on the quiz, three timer
      ids used, nothing pending. */
  const AtQuiz: PlayerState := Initial.(index := 4, nextTimerId := 3)

  /** The interactive part: "Start Lesson", then each desktop click with
      the advance it arms, lands on the quiz without reporting anything. */
  lemma DesktopStepsReachQuiz(narration: string)
    ensures Run(Fixture.NavigatingDesktop, narration, Initial,
                [NextClicked] + WithAdvances(Win11.PressAll(Win11.Closed, DesktopClicks).1, 0))
            == Trace(AtQuiz, [])
  {
    var l := Fixture.NavigatingDesktop;
    InitialValid(l);
    Win11.FirstLessonClicks();
    var es := Win11.PressAll(Win11.Closed, DesktopClicks).1;
    assert es == [ClickOn("start-button"), ClickOn("settings-app"), ClickOn("close-settings")];
    var s1 := Initial.(index := 1);
    var s2 := Initial.(index := 2, nextTimerId := 1);
    var s3 := Initial.(index := 3, nextTimerId := 2);
    var w2 := WithAdvances(es[2..], 2);
    assert w2 == [Reported(es[2]), AdvanceFires(2)] + WithAdvances([], 3) by {
      assert es[2..][1..] == [];
    }
    var w1 := WithAdvances(es[1..], 1);
    assert w1 == [Reported(es[1]), AdvanceFires(1)] + w2 by {
      assert es[1..][1..] == es[2..];
    }
    var w0 := WithAdvances(es, 0);
    assert w0 == [Reported(es[0]), AdvanceFires(0)] + w1;
    RunClickThenAdvance(l, narration, s3, []);
    RunClickThenAdvance(l, narration, s2, w2);
    RunClickThenAdvance(l, narration, s1, w1);
    StartLesson(l, narration, Initial, w0);
  }

  /** The quiz part: both answers right scores 2 of 2 and reports the
      lesson finished, once. */
  lemma QuizFinishesLesson(narration: string)
    ensures var t := Run(Fixture.NavigatingDesktop, narration, AtQuiz, QuizAnswers);
            t == Trace(AtQuiz.(quiz := QuizMachine.QuizState(1, 2, true, Some("b"), true)), ["navigating-desktop"])
  {
    var l := Fixture.NavigatingDesktop;
    var q1 := AtQuiz.(quiz := QuizMachine.QuizState(0, 1, false, Some("a"), true));
    var q2 := AtQuiz.(quiz := QuizMachine.QuizState(1, 1, false, None, false));
    var q3 := AtQuiz.(quiz := QuizMachine.QuizState(1, 2, false, Some("b"), true));
    var q4 := AtQuiz.(quiz := QuizMachine.QuizState(1, 2, true, Some("b"), true));
    assert CurrentStep(l, AtQuiz) == Fixture.DesktopQuiz;
    assert Apply(l, narration, AtQuiz, OptionClicked(0)) == Reaction(q1, Silent);
    assert Apply(l, narration, q1, NextQuestionClicked) == Reaction(q2, Silent);
    assert Apply(l, narration, q2, OptionClicked(1)) == Reaction(q3, Silent);
    assert Apply(l, narration, q3, NextQuestionClicked) == Reaction(q4, LessonFinished("navigating-desktop"));
    var e := QuizAnswers;
    assert e[1..] == [NextQuestionClicked, OptionClicked(1), NextQuestionClicked];
    assert e[1..][1..] == [OptionClicked(1), NextQuestionClicked];
    assert e[1..][1..][1..] == [NextQuestionClicked];
    assert e[1..][1..][1..][1..] == [];
    assert Run(l, narration, q3, [NextQuestionClicked]).finished == ["navigating-desktop"];
  }

  /** Everything the learner does in the first lesson: "Start Lesson", the
      desktop's three click reports each followed by its auto-advance, and
      both quiz answers right. */
  function FirstLessonEvents(): seq<Event> {
    [NextClicked] + WithAdvances(Win11.PressAll(Win11.Closed, DesktopClicks).1, 0) + QuizAnswers
  }

  /** The player after those events: on the quiz results, 2 of 2. */
  const Finished: PlayerState := AtQuiz.(quiz := QuizMachine.QuizState(1, 2, true, Some("b"), true))

  /** The first lesson end to end: the desktop's click reports complete the
      three interactive steps and a perfect quiz reports the lesson finished
      exactly once, with a passing score. */
  lemma FirstLessonRun(narration: string)
    ensures Run(Fixture.NavigatingDesktop, narration, Initial, FirstLessonEvents())
            == Trace(Finished, ["navigating-desktop"])
    ensures QuizMachine.Passed(Finished.quiz, |Fixture.DesktopQuiz.questions|)
  {
    var l := Fixture.NavigatingDesktop;
    InitialValid(l);
    var a := [NextClicked] + WithAdvances(Win11.PressAll(Win11.Closed, DesktopClicks).1, 0);
    DesktopStepsReachQuiz(narration);
    QuizFinishesLesson(narration);
    RunAppend(l, narration, Initial, a, QuizAnswers);
    assert [] + ["navigating-desktop"] == ["navigating-desktop"];
  }

  /** Once the settings store has recorded the first lesson, the overview
      opens the second lesson of the Windows course. */
  lemma FirstLessonUnlocksSecond(narration: string, settings: Settings.Settings)
    ensures var t := Run(Fixture.NavigatingDesktop, narration, Initial, FirstLessonEvents());
            var after := Report(settings, t.finished);
            CourseOverview.LessonClick(Fixture.Windows11.lessons, Settings.ExposedCompleted(after), 1)
            == Some(Fixture.ManagingFiles)
  {
    FirstLessonRun(narration);
    InitialValid(Fixture.NavigatingDesktop);
    assert Fixture.Windows11.lessons[0] == Fixture.NavigatingDesktop;
    assert Fixture.Windows11.lessons[1] == Fixture.ManagingFiles;
    FinishingUnlocksNext(Fixture.Windows11, 0, narration, Initial, FirstLessonEvents(), settings);
  }
}
