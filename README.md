# Trivia quiz sessions, modelled in Dafny

This project models the rule-bearing part of a small SwiftUI trivia app:

- the **first quiz screen** (`trivia/`): a fixed bank of two questions. A tap
  on an option records whether it was right. "Next Question" moves round the
  bank, wrapping to the first question after the last one.
- the **later quiz screen** (`trivia-updated/`): questions come from an
  OpenTDB response bundled with the app. Each record becomes a `Question`
  with HTML-decoded text and shuffled options. A tap is ignored while a
  result is shown, and a right answer earns one point. "Next Question" wraps
  round the loaded list and clears both result flags.
- the **answer rows of the full game** (`trivia-game-full/`): each option is
  shown as neutral, correct, wrong or dimmed. The lives header draws
  `max(lives, 0)` hearts.

Files:

- `quiz.dfy` (module `Quiz`): the `Question` value and the wrap-around index
  step that both screens use, with the modular-arithmetic lemmas behind it.
- `minimal_quiz.dfy` (module `MinimalQuiz`): the first screen.
- `updated_quiz.dfy` (module `UpdatedQuiz`): the OpenTDB mapping, the view
  model that holds the loaded questions, and the later screen. It ends with
  `TwoRoundScenario`, a worked example that drives the screen through a load,
  a right answer, an ignored second tap and two advances.
- `answer_rows.dfy` (module `AnswerRows`): row classification and heart count.
- `variants.dfy` (module `Variants`): the two screens side by side.

Each screen is a `class` whose fields are the screen's state variables. Its
methods are proved against pure step functions (`AnswerStep`,
`AdvanceStep`), and the properties the screens promise are lemmas about those
functions.

HTML-entity decoding (`String.htmlDecoded`, which calls a platform HTML
parser) is a parameter `decode: string -> string` that can be any function.
`shuffled()` is a parameter `shuffle(k, options)`, where `k` is the position
of the record being mapped. The only thing assumed of it (`IsShuffle`) is
that it returns a reordering of its input. Reading the bundled file and JSON
decoding are a parameter `BundleRead`, which says whether the file was
missing, unparsable, or decoded into records.

Where a quiz session might be expected to behave otherwise, this model
follows the code:

- neither screen has a game-over: "Next Question" wraps around;
- "Next Question" has no "must have answered first" guard in the code. The
  button is only drawn while a result is shown;
- no screen rejects an answer that is not among the options. `CheckAnswer`
  accepts any string and calls it wrong;
- the first screen has no double-tap guard at all.

Both screens keep `currentQuestionIndex`, and the later screen `points`,
non-negative: they start at 0 and are only ever incremented or reduced
modulo the question count. They are therefore `nat` here.

## Model

| member | source | states |
|---|---|---|
| `Quiz.NextIndex` | trivia-updated/Trivia-Game/ContentView.swift:204 | the next index is in `[0, count)`; it is `i + 1` before the last question and 0 after it |
| `Quiz.NextIndexOfMod` | trivia/Trivia-Game/ContentView.swift:69 | stepping from `a mod count` gives `(a + 1) mod count`, so repeated steps count modulo the list length |
| `MinimalQuiz.SampleQuestionsWellFormed` | trivia/Trivia-Game/ContentView.swift:10-18 | the bank has two questions, and each one's answer is among its options |
| `MinimalQuiz.AnswerStep` | trivia/Trivia-Game/ContentView.swift:62-66 | after a tap the result is shown, `isCorrect` holds exactly when the tapped option is the current question's answer, and the index is unchanged |
| `MinimalQuiz.AdvanceStep` | trivia/Trivia-Game/ContentView.swift:68-71 | the index moves to the next question or wraps to 0, and stays below the question count; the result is hidden; `isCorrect` is left as it was |
| `MinimalQuiz.AnswerOverwrites` | trivia/Trivia-Game/ContentView.swift:62-66 | with no guard, a second tap overwrites the first: two taps leave the same state as the second tap alone |
| `MinimalQuiz.AdvancesCycle` | trivia/Trivia-Game/ContentView.swift:68-70 | after `k` advances the index is `(start + k) mod count`, the result is hidden (for `k > 0`), and `isCorrect` survives every advance |
| `MinimalQuiz.SampleIndexCycles` | trivia/Trivia-Game/ContentView.swift:21-25 | from the initial state the index after `k` advances is `k mod 2`: it runs 0, 1, 0, … and never leaves the bank |
| `MinimalQuiz.ContentView.constructor` | trivia/Trivia-Game/ContentView.swift:21-25 | the screen starts on question 0 with both flags false, over the sample bank |
| `MinimalQuiz.ContentView.CurrentQuestion` | trivia/Trivia-Game/ContentView.swift:28 | the lookup `questions[currentQuestionIndex]` is always in bounds and gives a well-formed question of the bank |
| `MinimalQuiz.ContentView.CheckAnswer` | trivia/Trivia-Game/ContentView.swift:62-66 | the new state is `AnswerStep` of the old one; the index stays in bounds |
| `MinimalQuiz.ContentView.NextQuestion` | trivia/Trivia-Game/ContentView.swift:68-71 | the new state is `AdvanceStep` of the old one; the index stays in bounds |
| `UpdatedQuiz.MapQuestion` | trivia-updated/Trivia-Game/ContentView.swift:65-72 | a mapped question has the decoded text and the decoded correct answer. Its options are the decoded correct answer and decoded incorrect answers, as a multiset, so there is one more option than there are incorrect answers. The answer is one of the options |
| `UpdatedQuiz.MapResults` | trivia-updated/Trivia-Game/ContentView.swift:65-76 | one question per decoded record, in record order, and every one offers its own answer |
| `UpdatedQuiz.Loaded` | trivia-updated/Trivia-Game/ContentView.swift:54-76 | a missing or unparsable file leaves no questions; a decoded file leaves one well-formed question per record |
| `UpdatedQuiz.TriviaViewModel.constructor` | trivia-updated/Trivia-Game/ContentView.swift:47 | the view model starts with no questions |
| `UpdatedQuiz.TriviaViewModel.LoadFromBundle` | trivia-updated/Trivia-Game/ContentView.swift:51-80 | the list is emptied first, then replaced by the mapped records when the file decodes (`Loaded`) |
| `UpdatedQuiz.AnswerStep` | trivia-updated/Trivia-Game/ContentView.swift:193-200 | a tap while a result is shown changes nothing. Otherwise the result is shown and the index is kept. `isCorrect` holds exactly when the tap is the current answer, and points grow by 1 exactly then. Points never drop and never grow by more than 1 |
| `UpdatedQuiz.AdvanceStep` | trivia-updated/Trivia-Game/ContentView.swift:202-207 | with no questions nothing changes. Otherwise the index moves to the next question or wraps to 0 and stays below the count. Both flags are cleared, and points are unchanged |
| `UpdatedQuiz.AnswerIgnoresRepeat` | trivia-updated/Trivia-Game/ContentView.swift:193-194 | two taps leave the same state as the first tap alone: the double-tap guard makes answering idempotent per question |
| `UpdatedQuiz.AdvancesCycle` | trivia-updated/Trivia-Game/ContentView.swift:202-207 | after `k` advances over `count > 0` questions the index is `(start + k) mod count` and points are unchanged. For `k > 0` both flags are clear |
| `UpdatedQuiz.PlayScore` | trivia-updated/Trivia-Game/ContentView.swift:193-207 | over rounds of "tap, then Next", the score grows by exactly the number of right picks, where pick `j` goes to question `(start + j) mod count`. The index ends one place further on per pick |
| `UpdatedQuiz.ContentView.constructor` | trivia-updated/Trivia-Game/ContentView.swift:85-90 | the screen starts at index 0, both flags false and 0 points, with a new, empty view model, and satisfies `Valid()`: the index is in bounds whenever there are questions and 0 while there are none |
| `UpdatedQuiz.ContentView.OnAppear` | trivia-updated/Trivia-Game/ContentView.swift:120-123 | questions are loaded only when there are none yet; the screen's own state is untouched, and `Valid()` is kept because a load only happens while the index is 0 |
| `UpdatedQuiz.ContentView.CheckAnswer` | trivia-updated/Trivia-Game/ContentView.swift:193-200 | callable when a result is shown or the list is non-empty (the game view is drawn only then); the new state is `AnswerStep` of the old one and `Valid()` is kept |
| `UpdatedQuiz.ContentView.NextQuestion` | trivia-updated/Trivia-Game/ContentView.swift:202-207 | the new state is `AdvanceStep` of the old one and `Valid()` is kept: the index is in bounds whenever there are questions |
| `AnswerRows.RowStateFor` | trivia-game-full/Trivia-Game-Full/Trivia-Game-Full/GameView.swift:105-110 | neutral exactly before answering. Afterwards the row is correct exactly for the right answer, even when it was picked. It is wrong exactly for a picked option that is not the answer, and dimmed otherwise |
| `AnswerRows.RowsBeforeAnswer` | trivia-game-full/Trivia-Game-Full/Trivia-Game-Full/GameView.swift:106 | before answering every row of the question is neutral |
| `AnswerRows.RowCountsAfterAnswer` | trivia-game-full/Trivia-Game-Full/Trivia-Game-Full/GameView.swift:74-81 | after answering, the correct rows number the options equal to the answer. The wrong rows number the options equal to a wrong pick, and there are none if nothing or the answer was picked |
| `AnswerRows.RowsAfterAnswer` | trivia-game-full/Trivia-Game-Full/Trivia-Game-Full/GameView.swift:105-110 | with distinct options that include the answer, after answering exactly one row is correct and at most one is wrong. One is wrong exactly when another option was picked |
| `AnswerRows.HeartCount` | trivia-game-full/Trivia-Game-Full/Trivia-Game-Full/GameView.swift:119 | the heart count `max(lives, 0)` is never negative, equals `lives` when that is not negative, and is 0 otherwise |
| `Variants.FirstAnswerAgrees` | trivia-updated/Trivia-Game/ContentView.swift:195-198 | on a first tap both screens reach the same index, flags and verdict |
| `Variants.RepeatedAnswerDiffers` | trivia-updated/Trivia-Game/ContentView.swift:194 | on a repeated tap the later screen keeps the first verdict; the first screen takes the last |
| `Variants.WrongThenRight` | trivia/Trivia-Game/ContentView.swift:62-66 | on any question, a wrong tap followed by the right answer ends "correct" on the first screen but "wrong" with no point earned on the later one |
| `Variants.AdvanceDiffersInVerdict` | trivia-updated/Trivia-Game/ContentView.swift:205-206 | "Next Question" agrees between the screens except that only the later one clears `isCorrect`, which the first screen keeps |

## Left out

- Bundle lookup, `Data(contentsOf:)` and `JSONDecoder` (trivia-updated ContentView.swift:57-63): file I/O and library decoding. Their outcome is the `BundleRead` parameter.
- The view model's `error` and `isLoading` flags and their messages: they only pick which screen is drawn.
- `String.htmlDecoded`: a call into the platform's HTML parser. It is the arbitrary `decode` function.
- `shuffled()`: randomness. It is the `shuffle` oracle, and only its permutation property is assumed.
- The `id = UUID()` of the later `Question`: random identity that no rule reads.
- The "Retry" and "Load Questions" buttons (trivia-updated ContentView.swift:100-112) are not separate methods. They are drawn only while the list is empty (an error is only ever set after the list was emptied), so they load under the same condition as `OnAppear`, which stands for all three.
- `MinimalQuiz.AnswerStep`: the tapped option is compared with the answer code point by code point. Swift's `String ==` compares by Unicode canonical equivalence, so an option that is canonically equivalent to the answer but encoded differently (precomposed "é" against "e" plus a combining accent) is right in the app and wrong here.
- `UpdatedQuiz.AnswerStep`: the same code-point comparison, so for such an option the model awards no point where the app awards one.
- `AnswerRows.RowStateFor`: the same code-point comparison with the answer and with the picked option, so a canonically equivalent option is dimmed or wrong here where the app shows it as correct.
- `AnswerRows.RowsAfterAnswer`: `Distinct` means distinct code-point sequences, not distinct under canonical equivalence, so options that differ only in encoding count as different and the "exactly one correct row" holds here where the app would show two.
- Swift `Int` overflow of `points` and of the index: not modelled, since integers are unbounded here.
- `Haptics.feedback`, `TimeBar.progress` (floating-point display), and all layout, colour, animation and navigation.
- The lives/timer/game-over/high-score engine (`GameViewModel`, `GameSettings`, `GameMode`, `HighScoreStore`): GameViewModel.swift and the settings and store files are not part of this model. `hasAnswered`, `selectedOption` (taken to be an optional string) and `lives` are therefore inputs of `RowStateFor` and `HeartCount`.
- HomeView.swift, ResultsView.swift and the Test-Product screen: presentation only.
