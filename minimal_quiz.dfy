/** The first quiz screen: a fixed bank of two questions, an answer check
    without a double-tap guard or a score, and a "Next Question" button that
    wraps around the bank. */
module MinimalQuiz {
  import opened Quiz

  /** The bank compiled into the screen. */
  const SampleQuestions: seq<Question> := [
    Question("What is the capital of France?", ["Berlin", "Madrid", "Paris", "Rome"], "Paris"),
    Question("What is 2 + 2?", ["3", "4", "5", "6"], "4")
  ]

  /** The bank has two questions and each one's answer is among its options. */
  lemma SampleQuestionsWellFormed()
    ensures |SampleQuestions| == 2
    ensures forall q :: q in SampleQuestions ==> WellFormed(q)
  {
    assert SampleQuestions[0].options[2] == "Paris";
    assert SampleQuestions[1].options[1] == "4";
  }

  /** The screen's three state variables. */
  datatype SessionState = SessionState(currentQuestionIndex: nat, showResult: bool, isCorrect: bool)

  /** The state when the screen first appears. */
  const Initial := SessionState(0, false, false)

  /** Tapping option `selected`: the verdict for the current question is
      recorded and the result is shown. There is no guard, so this happens
      however often it is tapped. */
  function AnswerStep(questions: seq<Question>, s: SessionState, selected: string): (r: SessionState)
    requires s.currentQuestionIndex < |questions|
    ensures r.showResult
    ensures r.isCorrect <==> selected == questions[s.currentQuestionIndex].answer
    ensures r.currentQuestionIndex == s.currentQuestionIndex
  {
    s.(isCorrect := selected == questions[s.currentQuestionIndex].answer, showResult := true)
  }

  /** Tapping "Next Question": move to the following question, wrapping to
      the first after the last, and hide the result. The verdict flag is
      left as it was. */
  function AdvanceStep(questions: seq<Question>, s: SessionState): (r: SessionState)
    requires |questions| > 0
    ensures r.currentQuestionIndex < |questions|
    ensures s.currentQuestionIndex + 1 < |questions| ==> r.currentQuestionIndex == s.currentQuestionIndex + 1
    ensures s.currentQuestionIndex + 1 == |questions| ==> r.currentQuestionIndex == 0
    ensures !r.showResult
    ensures r.isCorrect == s.isCorrect
  {
    s.(currentQuestionIndex := NextIndex(s.currentQuestionIndex, |questions|), showResult := false)
  }

  /** A later tap overwrites an earlier one: only the last answer given to a
      question is remembered. */
  lemma AnswerOverwrites(questions: seq<Question>, s: SessionState, first: string, second: string)
    requires s.currentQuestionIndex < |questions|
    ensures AnswerStep(questions, AnswerStep(questions, s, first), second) == AnswerStep(questions, s, second)
  {
  }

  /** The state after `k` taps on "Next Question". */
  function Advances(questions: seq<Question>, s: SessionState, k: nat): SessionState
    requires |questions| > 0
  {
    if k == 0 then s else AdvanceStep(questions, Advances(questions, s, k - 1))
  }

  /** After `k` taps on "Next Question" the index has moved `k` places round
      the bank, the result is hidden (once at least one tap happened), and
      the verdict flag still holds whatever it held before. */
  lemma {:induction false} AdvancesCycle(questions: seq<Question>, s: SessionState, k: nat)
    requires |questions| > 0 && s.currentQuestionIndex < |questions|
    ensures Advances(questions, s, k).currentQuestionIndex == (s.currentQuestionIndex + k) % |questions|
    ensures k > 0 ==> !Advances(questions, s, k).showResult
    ensures Advances(questions, s, k).isCorrect == s.isCorrect
  {
    if k == 0 {
      ModUnique(s.currentQuestionIndex, |questions|, 0, s.currentQuestionIndex);
    } else {
      AdvancesCycle(questions, s, k - 1);
      NextIndexOfMod(s.currentQuestionIndex + k - 1, |questions|);
    }
  }

  /** With the two-question bank the index runs 0, 1, 0, 1, ... */
  lemma SampleIndexCycles(k: nat)
    ensures Advances(SampleQuestions, Initial, k).currentQuestionIndex == k % 2
    ensures Advances(SampleQuestions, Initial, k).currentQuestionIndex < |SampleQuestions|
  {
    AdvancesCycle(SampleQuestions, Initial, k);
  }

  /** The screen, with its state variables as fields. */
  class ContentView {
    var currentQuestionIndex: nat
    var showResult: bool
    var isCorrect: bool
    const questions: seq<Question>

    /** The screen works on the sample bank and its index is always a
        position in it. */
    ghost predicate Valid()
      reads this
    {
      questions == SampleQuestions && currentQuestionIndex < |questions|
    }

    function State(): SessionState
      reads this
    {
      SessionState(currentQuestionIndex, showResult, isCorrect)
    }

    constructor ()
      ensures Valid() && State() == Initial
    {
      currentQuestionIndex, showResult, isCorrect := 0, false, false;
      questions := SampleQuestions;
    }

    /** The question the screen shows: the lookup is always in bounds and
        always yields a well-formed question of the bank. */
    function CurrentQuestion(): (q: Question)
      reads this
      requires Valid()
      ensures q in SampleQuestions && WellFormed(q)
    {
      SampleQuestionsWellFormed();
      questions[currentQuestionIndex]
    }

    method CheckAnswer(selected: string)
      requires Valid()
      modifies this
      ensures Valid() && State() == AnswerStep(questions, old(State()), selected)
    {
      var correct := questions[currentQuestionIndex].answer;
      isCorrect := selected == correct;
      showResult := true;
    }

    method NextQuestion()
      requires Valid()
      modifies this
      ensures Valid() && State() == AdvanceStep(questions, old(State()))
    {
      currentQuestionIndex := (currentQuestionIndex + 1) % |questions|;
      showResult := false;
    }
  }
}
