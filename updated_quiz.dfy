/** The later quiz screen: questions come from an OpenTDB response bundled
    with the app, the answer check ignores repeated taps and keeps a score,
    and "Next Question" wraps around the loaded list. */
module UpdatedQuiz {
  import opened Quiz

  /** One record of the OpenTDB `results` array (`type` is `kind` here). */
  datatype OTDBQuestion = OTDBQuestion(
    category: string,
    kind: string,
    difficulty: string,
    question: string,
    correctAnswer: string,
    incorrectAnswers: seq<string>)

  /** What locating and decoding the bundled file gave: no such file, a
      file that is not a valid response, or the decoded records. */
  datatype BundleRead = MissingFile | Unparsable | Decoded(results: seq<OTDBQuestion>)

  /** `shuffled()` on its `k`-th call (`k` being the position of the record
      being mapped) may return the options in any order, but it returns
      exactly the options it was given. */
  ghost predicate IsShuffle(shuffle: (nat, seq<string>) -> seq<string>) {
    forall k, s :: multiset(shuffle(k, s)) == multiset(s)
  }

  /** Decodes HTML entities in every string of `s`, keeping the order. */
  function DecodeAll(decode: string -> string, s: seq<string>): seq<string> {
    seq(|s|, i requires 0 <= i < |s| => decode(s[i]))
  }

  /** One OpenTDB record as a `Question`: decoded text, the decoded correct
      answer followed by the decoded incorrect ones in some shuffled order,
      and the decoded correct answer. */
  function MapQuestion(k: nat, q: OTDBQuestion, decode: string -> string,
                       shuffle: (nat, seq<string>) -> seq<string>): (r: Question)
    requires IsShuffle(shuffle)
    ensures r.text == decode(q.question)
    ensures r.answer == decode(q.correctAnswer)
    ensures multiset(r.options) == multiset([decode(q.correctAnswer)] + DecodeAll(decode, q.incorrectAnswers))
    ensures |r.options| == 1 + |q.incorrectAnswers|
    ensures WellFormed(r)
  {
    var all := DecodeAll(decode, [q.correctAnswer] + q.incorrectAnswers);
    assert all == [decode(q.correctAnswer)] + DecodeAll(decode, q.incorrectAnswers);
    var options := shuffle(k, all);
    assert |options| == |multiset(options)| == |multiset(all)| == |all|;
    assert decode(q.correctAnswer) in multiset(options) by {
      assert all[0] == decode(q.correctAnswer);
    }
    Question(decode(q.question), options, decode(q.correctAnswer))
  }

  /** All decoded records as questions: one per record, in order, each
      offering its own answer. */
  function MapResults(results: seq<OTDBQuestion>, decode: string -> string,
                      shuffle: (nat, seq<string>) -> seq<string>): (r: seq<Question>)
    requires IsShuffle(shuffle)
    ensures |r| == |results|
    ensures forall i :: 0 <= i < |r| ==> r[i] == MapQuestion(i, results[i], decode, shuffle)
    ensures forall q :: q in r ==> WellFormed(q)
  {
    seq(|results|, i requires 0 <= i < |results| => MapQuestion(i, results[i], decode, shuffle))
  }

  /** The question list a load leaves behind: the mapped records, or
      nothing when the file is missing or cannot be decoded. */
  function Loaded(read: BundleRead, decode: string -> string,
                  shuffle: (nat, seq<string>) -> seq<string>): (r: seq<Question>)
    requires IsShuffle(shuffle)
    ensures read.Decoded? ==> |r| == |read.results|
    ensures !read.Decoded? ==> r == []
    ensures forall q :: q in r ==> WellFormed(q)
  {
    if read.Decoded? then MapResults(read.results, decode, shuffle) else []
  }

  /** The view model that owns the loaded questions. */
  class TriviaViewModel {
    var questions: seq<Question>

    constructor ()
      ensures questions == []
    {
      questions := [];
    }

    /** Empties the list, then fills it from the bundled file when that
        file decodes. */
    method LoadFromBundle(read: BundleRead, decode: string -> string,
                          shuffle: (nat, seq<string>) -> seq<string>)
      requires IsShuffle(shuffle)
      modifies this
      ensures questions == Loaded(read, decode, shuffle)
    {
      questions := [];
      match read {
        case MissingFile =>
        case Unparsable =>
        case Decoded(results) =>
          var mapped := MapResults(results, decode, shuffle);
          questions := mapped;
      }
    }
  }

  /** The screen's four state variables. */
  datatype SessionState = SessionState(currentQuestionIndex: nat, showResult: bool, isCorrect: bool, points: nat)

  /** The state when the screen first appears. */
  const Initial := SessionState(0, false, false, 0)

  /** Tapping option `selected`. While a result is shown the tap is ignored.
      Otherwise the verdict for the current question is recorded, the
      result is shown, and a correct answer earns one point. The index is
      looked up only past the guard. */
  function AnswerStep(questions: seq<Question>, s: SessionState, selected: string): (r: SessionState)
    requires s.showResult || s.currentQuestionIndex < |questions|
    ensures s.showResult ==> r == s
    ensures !s.showResult ==> r.showResult && r.currentQuestionIndex == s.currentQuestionIndex
    ensures !s.showResult ==> (r.isCorrect <==> selected == questions[s.currentQuestionIndex].answer)
    ensures !s.showResult ==> r.points == (if r.isCorrect then s.points + 1 else s.points)
    ensures s.points <= r.points <= s.points + 1
  {
    if s.showResult then s
    else
      var wasCorrect := selected == questions[s.currentQuestionIndex].answer;
      s.(isCorrect := wasCorrect, showResult := true,
         points := if wasCorrect then s.points + 1 else s.points)
  }

  /** Tapping "Next Question" over a list of `count` questions. With no
      questions nothing happens; otherwise the index moves to the next
      question, wrapping to the first after the last, and both result flags
      are cleared. The score is untouched. */
  function AdvanceStep(count: nat, s: SessionState): (r: SessionState)
    ensures count == 0 ==> r == s
    ensures count > 0 ==> r.currentQuestionIndex < count && !r.showResult && !r.isCorrect
    ensures count > 0 && s.currentQuestionIndex + 1 < count ==> r.currentQuestionIndex == s.currentQuestionIndex + 1
    ensures count > 0 && s.currentQuestionIndex + 1 == count ==> r.currentQuestionIndex == 0
    ensures r.points == s.points
  {
    if count == 0 then s
    else s.(currentQuestionIndex := NextIndex(s.currentQuestionIndex, count),
            showResult := false, isCorrect := false)
  }

  /** A second tap while the result is shown changes nothing: the first
      answer given to a question is the one that counts. */
  lemma AnswerIgnoresRepeat(questions: seq<Question>, s: SessionState, first: string, second: string)
    requires s.showResult || s.currentQuestionIndex < |questions|
    ensures AnswerStep(questions, AnswerStep(questions, s, first), second) == AnswerStep(questions, s, first)
  {
  }

  /** The state after `k` taps on "Next Question". */
  function Advances(count: nat, s: SessionState, k: nat): SessionState {
    if k == 0 then s else AdvanceStep(count, Advances(count, s, k - 1))
  }

  /** After `k` taps on "Next Question" over a non-empty list the index has
      moved `k` places round the list, the score is the same, and (once at
      least one tap happened) both result flags are clear. */
  lemma {:induction false} AdvancesCycle(count: nat, s: SessionState, k: nat)
    requires 0 < count && s.currentQuestionIndex < count
    ensures Advances(count, s, k).currentQuestionIndex == (s.currentQuestionIndex + k) % count
    ensures Advances(count, s, k).points == s.points
    ensures k > 0 ==> !Advances(count, s, k).showResult && !Advances(count, s, k).isCorrect
  {
    if k == 0 {
      ModUnique(s.currentQuestionIndex, count, 0, s.currentQuestionIndex);
    } else {
      AdvancesCycle(count, s, k - 1);
      NextIndexOfMod(s.currentQuestionIndex + k - 1, count);
    }
  }

  /** One round of play: tap `pick`, then tap "Next Question". */
  function Round(questions: seq<Question>, s: SessionState, pick: string): SessionState
    requires s.showResult || s.currentQuestionIndex < |questions|
  {
    AdvanceStep(|questions|, AnswerStep(questions, s, pick))
  }

  /** Rounds of play, one per tap in `picks`. */
  function Play(questions: seq<Question>, s: SessionState, picks: seq<string>): SessionState
    requires |questions| > 0 && s.currentQuestionIndex < |questions|
    decreases |picks|
  {
    if picks == [] then s
    else Play(questions, Round(questions, s, picks[0]), picks[1..])
  }

  /** How many of `picks` are right when the first is given to question
      `i`, the next to the question after it, and so on round the list. */
  function CorrectPicks(questions: seq<Question>, i: nat, picks: seq<string>): nat
    requires i < |questions|
    decreases |picks|
  {
    if picks == [] then 0
    else (if picks[0] == questions[i].answer then 1 else 0)
         + CorrectPicks(questions, NextIndex(i, |questions|), picks[1..])
  }

  /** Playing round after round from a state with no result showing, the
      score grows by exactly the number of right picks, the index ends
      `|picks|` places further round the list, and no result is showing. */
  lemma {:induction false} PlayScore(questions: seq<Question>, s: SessionState, picks: seq<string>)
    requires |questions| > 0 && s.currentQuestionIndex < |questions| && !s.showResult
    ensures Play(questions, s, picks).points == s.points + CorrectPicks(questions, s.currentQuestionIndex, picks)
    ensures Play(questions, s, picks).currentQuestionIndex == (s.currentQuestionIndex + |picks|) % |questions|
    ensures !Play(questions, s, picks).showResult
    decreases |picks|
  {
    var n := |questions|;
    if picks == [] {
      ModUnique(s.currentQuestionIndex, n, 0, s.currentQuestionIndex);
    } else {
      var t := Round(questions, s, picks[0]);
      assert t.currentQuestionIndex == (s.currentQuestionIndex + 1) % n by {
        ModUnique(s.currentQuestionIndex, n, 0, s.currentQuestionIndex);
        NextIndexOfMod(s.currentQuestionIndex, n);
      }
      PlayScore(questions, t, picks[1..]);
      ModAddLeft(s.currentQuestionIndex + 1, |picks[1..]|, n);
    }
  }

  /** The screen: it holds the view model and its own state variables. */
  class ContentView {
    const vm: TriviaViewModel
    var currentQuestionIndex: nat
    var showResult: bool
    var isCorrect: bool
    var points: nat

    function State(): SessionState
      reads this
    {
      SessionState(currentQuestionIndex, showResult, isCorrect, points)
    }

    /** The index is a position in the loaded list whenever there is one,
        and is 0 while the list is empty. A load never resets the index, but
        every load happens while the list is empty, and the index only moves
        while it is not, so a load always finds the index at 0. */
    ghost predicate Valid()
      reads this, vm
    {
      && (vm.questions != [] ==> currentQuestionIndex < |vm.questions|)
      && (vm.questions == [] ==> currentQuestionIndex == 0)
    }

    constructor ()
      ensures Valid() && fresh(vm) && vm.questions == [] && State() == Initial
    {
      vm := new TriviaViewModel();
      currentQuestionIndex, showResult, isCorrect, points := 0, false, false, 0;
    }

    /** On first appearance, load the bundled questions if there are none. */
    method OnAppear(read: BundleRead, decode: string -> string,
                    shuffle: (nat, seq<string>) -> seq<string>)
      requires Valid() && IsShuffle(shuffle)
      modifies vm
      ensures Valid()
      ensures old(vm.questions) == [] ==> vm.questions == Loaded(read, decode, shuffle)
      ensures old(vm.questions) != [] ==> vm.questions == old(vm.questions)
      ensures State() == old(State())
    {
      if vm.questions == [] {
        vm.LoadFromBundle(read, decode, shuffle);
      }
    }

    method CheckAnswer(selected: string)
      requires Valid() && (showResult || vm.questions != [])
      modifies this
      ensures Valid()
      ensures State() == AnswerStep(vm.questions, old(State()), selected)
    {
      if showResult {
        return;
      }
      var correct := vm.questions[currentQuestionIndex].answer;
      var wasCorrect := selected == correct;
      isCorrect := wasCorrect;
      showResult := true;
      if wasCorrect {
        points := points + 1;
      }
    }

    method NextQuestion()
      requires Valid()
      modifies this
      ensures Valid()
      ensures State() == AdvanceStep(|vm.questions|, old(State()))
    {
      if vm.questions == [] {
        return;
      }
      currentQuestionIndex := (currentQuestionIndex + 1) % |vm.questions|;
      showResult := false;
      isCorrect := false;
    }
  }

  /** A two-question session driven through the screen: a load, a right
      answer, an ignored second tap, and two advances that wrap around. */
  method TwoRoundScenario()
  {
    var records := [
      OTDBQuestion("Math", "multiple", "easy", "2+2?", "4", ["3"]),
      OTDBQuestion("Geography", "multiple", "easy", "Capital of France?", "Paris", ["Rome"])
    ];
    var decode := (t: string) => t;
    var shuffle := (k: nat, options: seq<string>) => options;
    var view := new ContentView();
    view.OnAppear(Decoded(records), decode, shuffle);
    assert |view.vm.questions| == 2 && view.vm.questions[0].answer == "4";
    view.CheckAnswer("4");
    assert view.points == 1 && view.isCorrect;
    view.CheckAnswer("3");
    assert view.points == 1 && view.isCorrect;
    view.NextQuestion();
    assert view.currentQuestionIndex == 1 && !view.showResult && !view.isCorrect;
    view.CheckAnswer("Rome");
    assert view.points == 1 && !view.isCorrect;
    view.NextQuestion();
    assert view.currentQuestionIndex == 0 && view.points == 1;
  }
}
