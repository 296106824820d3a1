/** The full game's answer buttons: how each option row is coloured once the
    player has or has not answered, and how many hearts the lives header
    draws. */
module AnswerRows {

  datatype Option<T> = None | Some(value: T)

  /** The four looks of an answer row. */
  datatype RowState = Neutral | Correct | Wrong | Dimmed

  /** The look of the row for `option` when `correct` is the question's
      answer: plain before answering; afterwards the right answer is shown
      as correct (whether or not it was picked), a wrong pick as wrong, and
      every other row dimmed. */
  function RowStateFor(option: string, correct: string, hasAnswered: bool,
                       selectedOption: Option<string>): (r: RowState)
    ensures r == Neutral <==> !hasAnswered
    ensures r == Correct <==> hasAnswered && option == correct
    ensures r == Wrong <==> hasAnswered && option != correct && selectedOption == Some(option)
    ensures r == Dimmed <==> hasAnswered && option != correct && selectedOption != Some(option)
  {
    if !hasAnswered then Neutral
    else if option == correct then Correct
    else if selectedOption == Some(option) then Wrong
    else Dimmed
  }

  /** The rows drawn for a question's options, in the order of the options. */
  function Rows(options: seq<string>, correct: string, hasAnswered: bool,
                selectedOption: Option<string>): seq<RowState>
  {
    seq(|options|, i requires 0 <= i < |options| => RowStateFor(options[i], correct, hasAnswered, selectedOption))
  }

  /** Options that are pairwise different. */
  predicate Distinct(s: seq<string>) {
    forall i, j :: 0 <= i < j < |s| ==> s[i] != s[j]
  }

  /** Before answering every row is plain. */
  lemma RowsBeforeAnswer(options: seq<string>, correct: string, selectedOption: Option<string>)
    ensures forall i :: 0 <= i < |options| ==> Rows(options, correct, false, selectedOption)[i] == Neutral
    ensures multiset(Rows(options, correct, false, selectedOption))[Neutral] == |options|
  {
    var rows := Rows(options, correct, false, selectedOption);
    assert rows == seq(|options|, _ => Neutral);
    ConstantCount(|options|, Neutral);
  }

  /** A sequence of `n` copies of `x` holds `x` exactly `n` times. */
  lemma {:induction false} ConstantCount(n: nat, x: RowState)
    ensures multiset(seq(n, _ => x))[x] == n
  {
    if n > 0 {
      ConstantCount(n - 1, x);
      assert seq(n, _ => x) == seq(n - 1, _ => x) + [x];
    }
  }

  /** After answering, the number of rows shown as correct is the number of
      options equal to the answer, and the number shown as wrong is the
      number of options equal to a wrong pick (none when nothing or the
      right answer was picked). */
  lemma {:induction false} RowCountsAfterAnswer(options: seq<string>, correct: string,
                                                selectedOption: Option<string>)
    ensures multiset(Rows(options, correct, true, selectedOption))[Correct] == multiset(options)[correct]
    ensures multiset(Rows(options, correct, true, selectedOption))[Wrong]
         == if selectedOption.Some? && selectedOption.value != correct
            then multiset(options)[selectedOption.value] else 0
  {
    var rows := Rows(options, correct, true, selectedOption);
    if options != [] {
      var rest := Rows(options[1..], correct, true, selectedOption);
      assert rows == [rows[0]] + rest;
      assert options == [options[0]] + options[1..];
      RowCountsAfterAnswer(options[1..], correct, selectedOption);
    }
  }

  /** In a list of different options each option occurs once. */
  lemma {:induction false} DistinctOccursOnce(s: seq<string>, x: string)
    requires Distinct(s)
    ensures multiset(s)[x] == if x in s then 1 else 0
  {
    if s != [] {
      assert s == [s[0]] + s[1..];
      DistinctOccursOnce(s[1..], x);
      assert x == s[0] ==> x !in s[1..];
    }
  }

  /** With different options among which is the answer, exactly one row is
      shown as correct once the player has answered, and at most one as
      wrong: one exactly when the player picked an option other than the
      answer. */
  lemma RowsAfterAnswer(options: seq<string>, correct: string, selectedOption: Option<string>)
    requires Distinct(options) && correct in options
    ensures multiset(Rows(options, correct, true, selectedOption))[Correct] == 1
    ensures multiset(Rows(options, correct, true, selectedOption))[Wrong] <= 1
    ensures multiset(Rows(options, correct, true, selectedOption))[Wrong] == 1
        <==> selectedOption.Some? && selectedOption.value in options && selectedOption.value != correct
  {
    RowCountsAfterAnswer(options, correct, selectedOption);
    DistinctOccursOnce(options, correct);
    if selectedOption.Some? {
      DistinctOccursOnce(options, selectedOption.value);
    }
  }

  /** The number of hearts drawn for `lives` remaining lives: `max(lives, 0)`,
      never negative and equal to `lives` when that is not negative. */
  function HeartCount(lives: int): (n: nat)
    ensures n >= lives
    ensures lives >= 0 ==> n == lives
    ensures lives < 0 ==> n == 0
  {
    if lives >= 0 then lives else 0
  }
}
