/** The quiz sub-state of the lesson player
    (src/components/LessonPlayer/LessonPlayer.js:16-23,73-101,266,316-358):
    a question index, a running score, the chosen option, whether the current
    question is answered, and whether the results screen is showing. */
module QuizMachine {
  import opened Common
  import opened Catalog
  import Localized

  datatype QuizState = QuizState(
    questionIndex: nat,
    score: nat,
    showResults: bool,
    selected: Option<string>,
    answered: bool)

  /** The state the player starts with. */
  const Fresh: QuizState := QuizState(0, 0, false, None, false)

  /** The score never exceeds the number of questions answered so far, and
      an option is chosen exactly when the question is answered. */
  predicate Valid(q: QuizState) {
    && q.score <= q.questionIndex + (if q.answered then 1 else 0)
    && (q.answered <==> q.selected.Some?)
  }

  /** `handleQuizOptionSelect(option)`: ignored once the question is
      answered; otherwise records the choice and counts it when correct. */
  function SelectOption(q: QuizState, option: QuizOption): (r: QuizState)
    ensures q.answered ==> r == q
    ensures !q.answered ==> r.answered && r.selected == Some(option.id)
    ensures !q.answered ==> (r.score == q.score + 1 <==> option.isCorrect)
    ensures !q.answered && !option.isCorrect ==> r.score == q.score
    ensures r.questionIndex == q.questionIndex && r.showResults == q.showResults
    ensures Valid(q) ==> Valid(r)
  {
    if q.answered then q
    else q.(selected := Some(option.id), answered := true,
            score := if option.isCorrect then q.score + 1 else q.score)
  }

  /** The outcome of `handleNextQuestion`: the new quiz state and whether
      the lesson gets reported complete. */
  datatype QuizStep = QuizStep(state: QuizState, finishes: bool)

  /** `handleNextQuestion()` on a quiz of `count` questions: moves to the
      next question with the choice cleared, or, on the last one, shows the
      results and reports the lesson complete. */
  function NextQuestion(q: QuizState, count: nat): (r: QuizStep)
    ensures r.finishes <==> q.questionIndex + 1 >= count
    ensures !r.finishes ==> r.state.questionIndex == q.questionIndex + 1 && r.state.selected.None? && !r.state.answered
    ensures r.finishes ==> r.state.showResults && r.state.questionIndex == q.questionIndex && r.state.selected == q.selected
    ensures r.state.score == q.score
    ensures !r.finishes ==> r.state.showResults == q.showResults
    ensures Valid(q) ==> Valid(r.state)
  {
    if q.questionIndex < count - 1 then
      QuizStep(q.(questionIndex := q.questionIndex + 1, selected := None, answered := false), false)
    else
      QuizStep(q.(showResults := true), true)
  }

  /** The results screen's pass flag: `score >= questions.length * 0.5`. */
  predicate Passed(q: QuizState, count: nat)
    ensures Passed(q, count) <==> q.score >= (count + 1) / 2
    ensures count == 0 ==> Passed(q, count)
  {
    2 * q.score >= count
  }

  /** How an option button is drawn: chosen (with its verdict), revealed as
      the right answer the user missed, or neutral. */
  datatype Mark = Neutral | Chosen(correct: bool) | RevealedCorrect

  function MarkOf(q: QuizState, option: QuizOption): (m: Mark)
    ensures m.Chosen? <==> q.selected == Some(option.id)
    ensures m.Chosen? ==> m.correct == option.isCorrect
    ensures m.RevealedCorrect? <==> q.answered && option.isCorrect && q.selected != Some(option.id)
  {
    if q.selected == Some(option.id) then Chosen(option.isCorrect)
    else if q.answered && option.isCorrect then RevealedCorrect
    else Neutral
  }

  /** Once a question with a correct option is answered, the correct answer
      is always shown, whichever option the user picked. */
  lemma CorrectAnswerShownOnceAnswered(q: QuizState, opts: seq<QuizOption>)
    requires q.answered
    requires CorrectCount(opts) == 1
    ensures exists i :: 0 <= i < |opts| && (MarkOf(q, opts[i]) == Chosen(true) || MarkOf(q, opts[i]) == RevealedCorrect)
  {
    SingleCorrectIsPresent(opts);
    var i :| 0 <= i < |opts| && opts[i].isCorrect;
    assert MarkOf(q, opts[i]) == Chosen(true) || MarkOf(q, opts[i]) == RevealedCorrect;
  }

  /** Two questions whose correct options are `a` and `b`: answering `a`
      then `b` scores 2, answering `a` twice scores 1, and either way the
      second "next" shows the results and finishes the lesson. */
  lemma TwoQuestionWalkthrough()
    ensures var q1 := SelectOption(Fresh, QuizOption("a", Localized.Plain("first"), true));
            var n1 := NextQuestion(q1, 2);
            var right := NextQuestion(SelectOption(n1.state, QuizOption("b", Localized.Plain("second"), true)), 2);
            var wrong := NextQuestion(SelectOption(n1.state, QuizOption("a", Localized.Plain("second"), false)), 2);
            && !n1.finishes && right.finishes && wrong.finishes
            && right.state.showResults && right.state.score == 2 && Passed(right.state, 2)
            && wrong.state.showResults && wrong.state.score == 1 && Passed(wrong.state, 2)
  {
  }
}
