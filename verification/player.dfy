/** The lesson player's step state machine
    (src/components/LessonPlayer/LessonPlayer.js). React state, the
    auto-advance timer ref and the fire-and-forget feedback-clear timers
    become one immutable record; every handler is a total function on it.

    Timers carry no clock. An armed auto-advance is a pending entry that
    remembers the step index of the render that armed it: its callback is
    that render's `handleNext`, so firing it acts on the captured index, not
    on the index current at the time it fires. The ref holds only the last
    armed entry; arming again overwrites it without cancelling the earlier
    one. */
module LessonPlayer {
  import opened Common
  import opened Localized
  import opened Catalog
  import opened Percent
  import QuizMachine

  /** The feedback banner: success carries the step's after-explanation,
      failure the "try again" text. */
  datatype Feedback = Correct(explanation: Option<Text>) | NotQuite

  /** A scheduled auto-advance: its timer id, the step index captured when it
      was armed, and its delay in milliseconds. */
  datatype PendingAdvance = PendingAdvance(id: nat, captured: nat, delay: nat)

  datatype PlayerState = PlayerState(
    index: nat,                       // currentStepIndex
    completed: bool,                  // isCompleted
    feedback: Option<Feedback>,
    timerRef: Option<nat>,            // autoAdvanceTimer.current
    advances: seq<PendingAdvance>,    // every auto-advance still scheduled
    nextTimerId: nat,
    pendingClears: nat,               // scheduled "clear feedback" callbacks
    quiz: QuizMachine.QuizState)

  /** What a transition reports to the settings store. */
  datatype Signal = Silent | LessonFinished(lessonId: string)

  datatype Reaction = Reaction(state: PlayerState, signal: Signal)

  const Initial: PlayerState := PlayerState(0, false, None, None, [], 0, 0, QuizMachine.Fresh)

  predicate HasTimer(advances: seq<PendingAdvance>, id: nat) {
    exists k :: 0 <= k < |advances| && advances[k].id == id
  }

  /** The state invariant: the step index is in range, every pending
      advance captured an index in range and has an id below the next one,
      the ref names a pending advance, and the quiz score is bounded. */
  predicate Valid(lesson: Lesson, s: PlayerState) {
    && |lesson.steps| > 0
    && s.index < |lesson.steps|
    && (forall k :: 0 <= k < |s.advances| ==>
          s.advances[k].captured < |lesson.steps| && s.advances[k].id < s.nextTimerId)
    && (s.timerRef.Some? ==> HasTimer(s.advances, s.timerRef.value))
    && QuizMachine.Valid(s.quiz)
  }

  lemma InitialValid(lesson: Lesson)
    requires |lesson.steps| > 0
    ensures Valid(lesson, Initial)
  {
  }

  function CurrentStep(lesson: Lesson, s: PlayerState): Step
    requires s.index < |lesson.steps|
  {
    lesson.steps[s.index]
  }

  /** `clearTimeout(id)`: the advance with that id is no longer pending. */
  function Cancel(advances: seq<PendingAdvance>, id: nat): (r: seq<PendingAdvance>)
    ensures forall a :: a in r <==> a in advances && a.id != id
    ensures !HasTimer(r, id)
    ensures |r| <= |advances|
  {
    if advances == [] then []
    else if advances[0].id == id then Cancel(advances[1..], id)
    else [advances[0]] + Cancel(advances[1..], id)
  }

  /** The pending advance with the given id. */
  function FindAdvance(advances: seq<PendingAdvance>, id: nat): (a: PendingAdvance)
    requires HasTimer(advances, id)
    ensures a in advances && a.id == id
  {
    if advances[0].id == id then advances[0]
    else
      assert HasTimer(advances[1..], id) by {
        var k :| 0 <= k < |advances| && advances[k].id == id;
        assert advances[1..][k - 1].id == id;
      }
      FindAdvance(advances[1..], id)
  }

  /** Length of the after-explanation resolved in the narration language,
      0 when it is absent or empty (`explanation ? explanation.length : 0`). */
  function ExplanationLength(step: Step, narration: string): nat {
    if step.Interactive? && step.afterExplanation.Some? then
      |Resolve(step.afterExplanation.value, narration)|
    else 0
  }

  /** The auto-advance delay: 80 ms per character of the explanation, never
      less than six seconds. */
  function AutoAdvanceDelay(step: Step, narration: string): (d: nat)
    ensures d >= 6000 && d >= 80 * ExplanationLength(step, narration)
    ensures d == 6000 || d == 80 * ExplanationLength(step, narration)
  {
    var n := ExplanationLength(step, narration);
    if 6000 >= n * 80 then 6000 else n * 80
  }

  /** An inbound event matches a step only when both fields are present and
      equal; overview and quiz steps carry neither. */
  predicate Matches(step: Step, action: string, targetId: string) {
    step.Interactive? && step.action == Some(action) && step.targetId == Some(targetId)
  }

  /** `handleAction(action, targetId)`. */
  function HandleAction(lesson: Lesson, narration: string, s: PlayerState, action: string, targetId: string): (r: PlayerState)
    requires s.index < |lesson.steps|
    ensures s.completed || CurrentStep(lesson, s).Overview? ==> r == s
    ensures r.index == s.index && r.completed == s.completed && r.quiz == s.quiz
    ensures !(s.completed || CurrentStep(lesson, s).Overview?) ==>
              r.feedback.Some? && (r.feedback.value.Correct? <==> Matches(CurrentStep(lesson, s), action, targetId))
    ensures !s.completed && Matches(CurrentStep(lesson, s), action, targetId) ==>
              && r.feedback == Some(Correct(CurrentStep(lesson, s).afterExplanation))
              && r.advances == s.advances + [PendingAdvance(s.nextTimerId, s.index, AutoAdvanceDelay(CurrentStep(lesson, s), narration))]
              && r.timerRef == Some(s.nextTimerId)
              && r.pendingClears == s.pendingClears
    ensures !(s.completed || CurrentStep(lesson, s).Overview?) && !Matches(CurrentStep(lesson, s), action, targetId) ==>
              && r.feedback == Some(NotQuite)
              && r.advances == s.advances && r.timerRef == s.timerRef
              && r.pendingClears == s.pendingClears + 1
    ensures Valid(lesson, s) ==> Valid(lesson, r)
  {
    var step := CurrentStep(lesson, s);
    if s.completed || step.Overview? then s
    else if Matches(step, action, targetId) then
      var armed := PendingAdvance(s.nextTimerId, s.index, AutoAdvanceDelay(step, narration));
      assert armed == (s.advances + [armed])[|s.advances|];
      s.(feedback := Some(Correct(step.afterExplanation)),
         advances := s.advances + [armed],
         timerRef := Some(s.nextTimerId),
         nextTimerId := s.nextTimerId + 1)
    else
      s.(feedback := Some(NotQuite), pendingClears := s.pendingClears + 1)
  }

  /** Cancel the advance the ref points at and empty the ref. */
  function ClearRef(s: PlayerState): (r: PlayerState)
    ensures r.timerRef.None?
    ensures s.timerRef.None? ==> r.advances == s.advances
    ensures s.timerRef.Some? ==> r.advances == Cancel(s.advances, s.timerRef.value)
    ensures r == s.(timerRef := None, advances := r.advances)
  {
    if s.timerRef.Some? then s.(advances := Cancel(s.advances, s.timerRef.value), timerRef := None)
    else s
  }

  /** `handleNext` of the render whose step index was `captured`: cancels the
      advance in the ref, clears feedback, then moves to `captured + 1` or,
      from the last step, marks the lesson completed. Completion here does
      NOT report to the settings store. */
  function HandleNext(lesson: Lesson, s: PlayerState, captured: nat): (r: PlayerState)
    requires captured < |lesson.steps|
    ensures r.feedback.None? && r.timerRef.None?
    ensures s.timerRef.Some? ==> !HasTimer(r.advances, s.timerRef.value)
    ensures forall a :: a in r.advances <==> a in s.advances && (s.timerRef.None? || a.id != s.timerRef.value)
    ensures captured + 1 < |lesson.steps| ==> r.index == captured + 1 && r.completed == s.completed
    ensures captured + 1 == |lesson.steps| ==> r.index == s.index && r.completed
    ensures r.quiz == s.quiz && r.pendingClears == s.pendingClears && r.nextTimerId == s.nextTimerId
    ensures Valid(lesson, s) ==> Valid(lesson, r)
  {
    var base := ClearRef(s).(feedback := None);
    if captured < |lesson.steps| - 1 then base.(index := captured + 1)
    else base.(completed := true)
  }

  /** `handlePrevious`: one step back unless at the first step. It checks
      neither completion nor pending advances. */
  function HandlePrevious(s: PlayerState): (r: PlayerState)
    ensures s.index > 0 ==> r.index == s.index - 1 && r.feedback.None?
    ensures s.index == 0 ==> r == s
    ensures r.completed == s.completed && r.advances == s.advances && r.timerRef == s.timerRef
    ensures r.quiz == s.quiz && r.pendingClears == s.pendingClears && r.nextTimerId == s.nextTimerId
  {
    if s.index > 0 then s.(index := s.index - 1, feedback := None) else s
  }

  /** `handleRestart`: back to the first step, not completed, no feedback,
      the ref'd advance cancelled. The quiz record is NOT reset. */
  function HandleRestart(s: PlayerState): (r: PlayerState)
    ensures r.index == 0 && !r.completed && r.feedback.None? && r.timerRef.None?
    ensures s.timerRef.Some? ==> !HasTimer(r.advances, s.timerRef.value)
    ensures forall a :: a in r.advances <==> a in s.advances && (s.timerRef.None? || a.id != s.timerRef.value)
    ensures r.quiz == s.quiz && r.pendingClears == s.pendingClears && r.nextTimerId == s.nextTimerId
  {
    ClearRef(s).(index := 0, completed := false, feedback := None)
  }

  /** `handleQuizOptionSelect(option)`. */
  function HandleQuizOptionSelect(s: PlayerState, option: QuizOption): (r: PlayerState)
    ensures r.quiz == QuizMachine.SelectOption(s.quiz, option)
    ensures r == s.(quiz := r.quiz)
  {
    s.(quiz := QuizMachine.SelectOption(s.quiz, option))
  }

  /** `handleNextQuestion` on the current quiz step: the only transition that
      reports the lesson finished. */
  function HandleNextQuestion(lesson: Lesson, s: PlayerState): (r: Reaction)
    requires s.index < |lesson.steps| && CurrentStep(lesson, s).Quiz?
    ensures var n := |CurrentStep(lesson, s).questions|;
            (r.signal == LessonFinished(lesson.id) <==> s.quiz.questionIndex + 1 >= n)
    ensures r.signal.Silent? || r.signal == LessonFinished(lesson.id)
    ensures r.signal.LessonFinished? ==> r.state.quiz.showResults
    ensures r.state == s.(quiz := r.state.quiz)
    ensures r.state.quiz.score == s.quiz.score
  {
    var step := QuizMachine.NextQuestion(s.quiz, |CurrentStep(lesson, s).questions|);
    Reaction(s.(quiz := step.state), if step.finishes then LessonFinished(lesson.id) else Silent)
  }

  /** A pending auto-advance fires: it leaves the schedule and runs its own
      render's `handleNext` with the index captured when it was armed. */
  function FireAdvance(lesson: Lesson, s: PlayerState, id: nat): (r: PlayerState)
    requires Valid(lesson, s)
    ensures !HasTimer(s.advances, id) ==> r == s
    ensures HasTimer(s.advances, id) ==>
              && !HasTimer(r.advances, id)
              && r.feedback.None? && r.timerRef.None?
              && var c := FindAdvance(s.advances, id).captured;
                 && (c + 1 < |lesson.steps| ==> r.index == c + 1 && r.completed == s.completed)
                 && (c + 1 == |lesson.steps| ==> r.index == s.index && r.completed)
    ensures Valid(lesson, r)
  {
    if !HasTimer(s.advances, id) then s
    else
      var a := FindAdvance(s.advances, id);
      var s' := s.(advances := Cancel(s.advances, id));
      assert s.timerRef.Some? && s.timerRef.value != id ==> HasTimer(s'.advances, s.timerRef.value) by {
        if s.timerRef.Some? && s.timerRef.value != id {
          var k :| 0 <= k < |s.advances| && s.advances[k].id == s.timerRef.value;
          assert s.advances[k] in s'.advances;
        }
      }
      var t := if s.timerRef == Some(id) then s'.(timerRef := None) else s';
      assert Valid(lesson, t) by {
        forall k | 0 <= k < |t.advances|
          ensures t.advances[k].captured < |lesson.steps| && t.advances[k].id < t.nextTimerId
        {
          assert t.advances[k] in s.advances;
        }
      }
      HandleNext(lesson, t, a.captured)
  }

  /** A scheduled "clear feedback" callback fires: it clears whatever
      feedback is showing, including a later success banner. */
  function FireClear(s: PlayerState): (r: PlayerState)
    ensures s.pendingClears > 0 ==> r.feedback.None? && r.pendingClears == s.pendingClears - 1
    ensures s.pendingClears == 0 ==> r == s
    ensures r == s.(feedback := r.feedback, pendingClears := r.pendingClears)
  {
    if s.pendingClears > 0 then s.(feedback := None, pendingClears := s.pendingClears - 1) else s
  }

  /** Step progress shown in the sidebar:
      `Math.round((index + (completed ? 1 : 0)) / steps * 100)`. */
  function Progress(lesson: Lesson, s: PlayerState): (p: nat)
    requires |lesson.steps| > 0
    ensures var k, n := s.index + (if s.completed then 1 else 0), |lesson.steps|;
            2 * n * p <= 200 * k + n < 2 * n * p + 2 * n
    ensures s.index == 0 && !s.completed ==> p == 0
  {
    RoundPercent(s.index + (if s.completed then 1 else 0), |lesson.steps|)
  }

  /** Progress stays within 0..100 and reaches 100 only once completed
      (for lessons under 200 steps; see Percent.NearlyAllRoundsToHundred). */
  lemma ProgressBounds(lesson: Lesson, s: PlayerState)
    requires Valid(lesson, s)
    ensures Progress(lesson, s) <= 100
    ensures |lesson.steps| < 200 && Progress(lesson, s) == 100 ==> s.completed
    ensures s.completed && s.index + 1 == |lesson.steps| ==> Progress(lesson, s) == 100
  {
    var k := s.index + (if s.completed then 1 else 0);
    AtMostHundred(k, |lesson.steps|);
    if !s.completed && |lesson.steps| < 200 {
      PartialBelowHundred(k, |lesson.steps|);
    }
    if s.completed && s.index + 1 == |lesson.steps| {
      FullIsHundred(|lesson.steps|);
    }
  }

  /** The highlight intent passed to the simulator: "attention" while the
      narration points at the target (voice-over on, no feedback showing),
      "action" otherwise. */
  function HighlightType(voiceOver: bool, s: PlayerState): (h: string)
    ensures h == "attention" <==> voiceOver && s.feedback.None?
    ensures h == "attention" || h == "action"
  {
    if voiceOver && s.feedback.None? then "attention" else "action"
  }

  // ---- The rendered controls ----

  /** What the learner (or a timer) can do to the player. */
  datatype Event =
    | SimulatorAction(action: string, targetId: string)
    | NextClicked
    | PreviousClicked
    | RestartClicked
    | OptionClicked(option: nat)
    | NextQuestionClicked
    | AdvanceFires(timer: nat)
    | FeedbackClearFires

  /** Whether the control behind an event is on screen: the simulator only
      in the interactive layout, "Start Lesson" on an overview, "Next Step"
      after a success, "Previous" on a non-first, non-completed interactive
      step, "Restart" on the quiz results or a completed interactive step,
      quiz buttons only while the question is showing. */
  predicate Offered(lesson: Lesson, s: PlayerState, e: Event)
    requires s.index < |lesson.steps|
    ensures CurrentStep(lesson, s).Overview? ==>
              (Offered(lesson, s, e) <==>
                 || e == NextClicked
                 || (e.AdvanceFires? && HasTimer(s.advances, e.timer))
                 || (e == FeedbackClearFires && s.pendingClears > 0))
    ensures Offered(lesson, s, e) && (e.SimulatorAction? || e == PreviousClicked) ==>
              CurrentStep(lesson, s).Interactive?
    ensures Offered(lesson, s, e) && (e.OptionClicked? || e == NextQuestionClicked) ==>
              CurrentStep(lesson, s).Quiz? && !s.quiz.showResults
    ensures Offered(lesson, s, e) && e == PreviousClicked ==> !s.completed && s.index > 0
  {
    var step := CurrentStep(lesson, s);
    match e
    case SimulatorAction(_, _) => step.Interactive?
    case NextClicked => step.Overview? || (step.Interactive? && s.feedback.Some? && s.feedback.value.Correct?)
    case PreviousClicked => step.Interactive? && !s.completed && s.index > 0
    case RestartClicked => (step.Quiz? && s.quiz.showResults) || (step.Interactive? && s.completed)
    case OptionClicked(k) =>
      step.Quiz? && !s.quiz.showResults && s.quiz.questionIndex < |step.questions|
      && k < |step.questions[s.quiz.questionIndex].options|
    case NextQuestionClicked =>
      step.Quiz? && !s.quiz.showResults && s.quiz.answered && s.quiz.questionIndex < |step.questions|
    case AdvanceFires(id) => HasTimer(s.advances, id)
    case FeedbackClearFires => s.pendingClears > 0
  }

  /** One event against the rendered player; events whose control is not on
      screen change nothing. */
  function Apply(lesson: Lesson, narration: string, s: PlayerState, e: Event): (r: Reaction)
    requires Valid(lesson, s)
    ensures Valid(lesson, r.state)
    ensures !Offered(lesson, s, e) ==> r == Reaction(s, Silent)
    ensures r.signal.LessonFinished? ==>
              && r.signal.lessonId == lesson.id
              && e.NextQuestionClicked?
              && CurrentStep(lesson, s).Quiz?
              && s.quiz.questionIndex + 1 >= |CurrentStep(lesson, s).questions|
    ensures r.signal.LessonFinished? ==> r.state.quiz.showResults
    ensures s.quiz.showResults ==> r.state.quiz.showResults && r.signal == Silent
  {
    if !Offered(lesson, s, e) then Reaction(s, Silent)
    else
      match e
      case SimulatorAction(action, targetId) => Reaction(HandleAction(lesson, narration, s, action, targetId), Silent)
      case NextClicked => Reaction(HandleNext(lesson, s, s.index), Silent)
      case PreviousClicked => Reaction(HandlePrevious(s), Silent)
      case RestartClicked => Reaction(HandleRestart(s), Silent)
      case OptionClicked(k) =>
        var q := CurrentStep(lesson, s).questions[s.quiz.questionIndex];
        Reaction(HandleQuizOptionSelect(s, q.options[k]), Silent)
      case NextQuestionClicked => HandleNextQuestion(lesson, s)
      case AdvanceFires(id) => Reaction(FireAdvance(lesson, s, id), Silent)
      case FeedbackClearFires => Reaction(FireClear(s), Silent)
  }

  /** A run of events: the final state and the lesson ids reported to the
      settings store, in order. */
  datatype Trace = Trace(state: PlayerState, finished: seq<string>)

  predicate HasQuiz(lesson: Lesson) {
    exists i :: 0 <= i < |lesson.steps| && lesson.steps[i].Quiz?
  }

  function Run(lesson: Lesson, narration: string, s: PlayerState, events: seq<Event>): (t: Trace)
    requires Valid(lesson, s)
    ensures Valid(lesson, t.state)
    ensures forall id :: id in t.finished ==> id == lesson.id
    ensures !HasQuiz(lesson) ==> t.finished == []
    decreases |events|
  {
    if events == [] then Trace(s, [])
    else
      var first := Apply(lesson, narration, s, events[0]);
      var rest := Run(lesson, narration, first.state, events[1..]);
      Trace(rest.state, (if first.signal.LessonFinished? then [first.signal.lessonId] else []) + rest.finished)
  }

  /** Once the results show, nothing hides them again (restart keeps the
      quiz record), so a run from there reports nothing. */
  lemma {:induction false} RunAfterResultsIsSilent(lesson: Lesson, narration: string, s: PlayerState, events: seq<Event>)
    requires Valid(lesson, s) && s.quiz.showResults
    ensures Run(lesson, narration, s, events).finished == []
    ensures Run(lesson, narration, s, events).state.quiz.showResults
    decreases |events|
  {
    if events != [] {
      var first := Apply(lesson, narration, s, events[0]);
      RunAfterResultsIsSilent(lesson, narration, first.state, events[1..]);
    }
  }

  /** A mounted player reports its lesson finished at most once, whatever
      the learner does afterwards. */
  lemma {:induction false} FinishedAtMostOnce(lesson: Lesson, narration: string, s: PlayerState, events: seq<Event>)
    requires Valid(lesson, s)
    ensures |Run(lesson, narration, s, events).finished| <= 1
    ensures s.quiz.showResults ==> Run(lesson, narration, s, events).finished == []
    decreases |events|
  {
    if s.quiz.showResults {
      RunAfterResultsIsSilent(lesson, narration, s, events);
    } else if events != [] {
      var first := Apply(lesson, narration, s, events[0]);
      if first.signal.LessonFinished? {
        RunAfterResultsIsSilent(lesson, narration, first.state, events[1..]);
      } else {
        FinishedAtMostOnce(lesson, narration, first.state, events[1..]);
      }
    }
  }

  // ---- Consequences of the timer handling ----

  /** The advance armed by a success, as the simulator reports it. */
  function Armed(lesson: Lesson, narration: string, s: PlayerState, action: string, targetId: string): PlayerState
    requires Valid(lesson, s)
  {
    Apply(lesson, narration, s, SimulatorAction(action, targetId)).state
  }

  /** Only the advance just armed carries the newest id. */
  lemma {:induction false} NewestAdvanceIsFound(lesson: Lesson, narration: string, s: PlayerState, action: string, targetId: string)
    requires Valid(lesson, s) && !s.completed
    requires Matches(CurrentStep(lesson, s), action, targetId)
    ensures var armed := Armed(lesson, narration, s, action, targetId);
            && HasTimer(armed.advances, s.nextTimerId)
            && FindAdvance(armed.advances, s.nextTimerId).captured == s.index
  {
    var armed := Armed(lesson, narration, s, action, targetId);
    var newest := armed.advances[|s.advances|];
    assert newest.id == s.nextTimerId && newest.captured == s.index;
    assert HasTimer(armed.advances, s.nextTimerId);
    var a := FindAdvance(armed.advances, s.nextTimerId);
    var k :| 0 <= k < |armed.advances| && armed.advances[k] == a;
    assert forall j :: 0 <= j < |s.advances| ==> armed.advances[j] == s.advances[j];
    assert k == |s.advances|;
  }

  /** "Next Step" after a success cancels the advance the success armed:
      when its time comes, nothing happens. */
  lemma NextCancelsArmedAdvance(lesson: Lesson, narration: string, s: PlayerState, action: string, targetId: string)
    requires Valid(lesson, s) && !s.completed
    requires Matches(CurrentStep(lesson, s), action, targetId)
    ensures var armed := Armed(lesson, narration, s, action, targetId);
            var next := Apply(lesson, narration, armed, NextClicked).state;
            && armed.timerRef == Some(s.nextTimerId)
            && !HasTimer(next.advances, s.nextTimerId)
            && Apply(lesson, narration, next, AdvanceFires(s.nextTimerId)) == Reaction(next, Silent)
            && (s.index + 1 < |lesson.steps| ==> next.index == s.index + 1)
            && (s.index + 1 == |lesson.steps| ==> next.completed)
  {
  }

  /** "Previous" does not cancel the armed advance: when it fires, the
      learner is carried from the step before to the step after the one
      they solved, skipping it. */
  lemma {:induction false} PreviousLeavesAdvanceArmed(lesson: Lesson, narration: string, s: PlayerState, action: string, targetId: string)
    requires Valid(lesson, s) && !s.completed && s.index > 0 && s.index + 1 < |lesson.steps|
    requires Matches(CurrentStep(lesson, s), action, targetId)
    ensures var armed := Armed(lesson, narration, s, action, targetId);
            var back := Apply(lesson, narration, armed, PreviousClicked).state;
            var fired := Apply(lesson, narration, back, AdvanceFires(s.nextTimerId)).state;
            && back.index == s.index - 1
            && HasTimer(back.advances, s.nextTimerId)
            && fired.index == s.index + 1 && !fired.completed
  {
    NewestAdvanceIsFound(lesson, narration, s, action, targetId);
  }

  /** The same on the last step: the stale advance completes the lesson
      while the learner looks at the step before it, so the player shows
      completion with progress short of 100%. */
  lemma {:induction false} StaleAdvanceCompletesEarly(lesson: Lesson, narration: string, s: PlayerState, action: string, targetId: string)
    requires Valid(lesson, s) && !s.completed && s.index > 0 && s.index + 1 == |lesson.steps| < 200
    requires Matches(CurrentStep(lesson, s), action, targetId)
    ensures var armed := Armed(lesson, narration, s, action, targetId);
            var back := Apply(lesson, narration, armed, PreviousClicked).state;
            var fired := Apply(lesson, narration, back, AdvanceFires(s.nextTimerId)).state;
            && fired.completed && fired.index == s.index - 1
            && Progress(lesson, fired) < 100
  {
    NewestAdvanceIsFound(lesson, narration, s, action, targetId);
    var armed := Armed(lesson, narration, s, action, targetId);
    var back := Apply(lesson, narration, armed, PreviousClicked).state;
    var fired := Apply(lesson, narration, back, AdvanceFires(s.nextTimerId)).state;
    assert fired.completed && fired.index == s.index - 1;
    PartialBelowHundred(s.index, |lesson.steps|);
  }

  /** Two successes on one step arm two advances; "Next Step" cancels only
      the second, so the first survives into the following step. */
  lemma {:induction false} RepeatedSuccessOrphansFirstAdvance(lesson: Lesson, narration: string, s: PlayerState, action: string, targetId: string)
    requires Valid(lesson, s) && !s.completed && s.index + 1 < |lesson.steps|
    requires Matches(CurrentStep(lesson, s), action, targetId)
    ensures var once := Armed(lesson, narration, s, action, targetId);
            var twice := Armed(lesson, narration, once, action, targetId);
            var next := Apply(lesson, narration, twice, NextClicked).state;
            && twice.timerRef == Some(s.nextTimerId + 1)
            && next.index == s.index + 1
            && HasTimer(next.advances, s.nextTimerId)
            && !HasTimer(next.advances, s.nextTimerId + 1)
  {
    var once := Armed(lesson, narration, s, action, targetId);
    var twice := Armed(lesson, narration, once, action, targetId);
    var next := Apply(lesson, narration, twice, NextClicked).state;
    var first := once.advances[|s.advances|];
    assert first.id == s.nextTimerId;
    assert twice.advances[|s.advances|] == first;
    assert first in next.advances;
  }
}
