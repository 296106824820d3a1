/** The first and the later quiz screen side by side: where their answer
    and advance steps agree and where they part. */
module Variants {
  import opened Quiz
  import MinimalQuiz
  import UpdatedQuiz

  /** The later screen's state without its score. */
  function Unscored(s: UpdatedQuiz.SessionState): MinimalQuiz.SessionState {
    MinimalQuiz.SessionState(s.currentQuestionIndex, s.showResult, s.isCorrect)
  }

  /** A first tap on a question does the same in both screens (the later one
      also scores it). */
  lemma FirstAnswerAgrees(questions: seq<Question>, s: UpdatedQuiz.SessionState, selected: string)
    requires !s.showResult && s.currentQuestionIndex < |questions|
    ensures Unscored(UpdatedQuiz.AnswerStep(questions, s, selected))
         == MinimalQuiz.AnswerStep(questions, Unscored(s), selected)
  {
  }

  /** A repeated tap differs: the later screen keeps the first verdict, the
      first screen takes the last one. */
  lemma RepeatedAnswerDiffers(questions: seq<Question>, s: UpdatedQuiz.SessionState,
                              first: string, second: string)
    requires !s.showResult && s.currentQuestionIndex < |questions|
    ensures Unscored(UpdatedQuiz.AnswerStep(questions, UpdatedQuiz.AnswerStep(questions, s, first), second))
         == MinimalQuiz.AnswerStep(questions, Unscored(s), first)
    ensures MinimalQuiz.AnswerStep(questions, MinimalQuiz.AnswerStep(questions, Unscored(s), first), second)
         == MinimalQuiz.AnswerStep(questions, Unscored(s), second)
  {
    UpdatedQuiz.AnswerIgnoresRepeat(questions, s, first, second);
    MinimalQuiz.AnswerOverwrites(questions, Unscored(s), first, second);
  }

  /** A wrong tap followed by a tap on the right answer: the first screen
      ends up showing "correct", the later one "wrong" with no point earned. */
  lemma WrongThenRight(questions: seq<Question>, s: UpdatedQuiz.SessionState, wrong: string)
    requires !s.showResult && s.currentQuestionIndex < |questions|
    requires wrong != questions[s.currentQuestionIndex].answer
    ensures var right := questions[s.currentQuestionIndex].answer;
            var later := UpdatedQuiz.AnswerStep(questions, UpdatedQuiz.AnswerStep(questions, s, wrong), right);
            !later.isCorrect && later.points == s.points
    ensures var right := questions[s.currentQuestionIndex].answer;
            MinimalQuiz.AnswerStep(questions, MinimalQuiz.AnswerStep(questions, Unscored(s), wrong), right).isCorrect
  {
  }

  /** "Next Question" moves the index and hides the result alike; only the
      later screen also clears the verdict flag. */
  lemma AdvanceDiffersInVerdict(questions: seq<Question>, s: UpdatedQuiz.SessionState)
    requires |questions| > 0
    ensures Unscored(UpdatedQuiz.AdvanceStep(|questions|, s))
         == MinimalQuiz.AdvanceStep(questions, Unscored(s)).(isCorrect := false)
    ensures MinimalQuiz.AdvanceStep(questions, Unscored(s)).isCorrect == s.isCorrect
  {
  }
}
