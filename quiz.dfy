/** Values shared by both quiz screens: the question record and the
    wrap-around step of the current-question index. */
module Quiz {

  /** A question as a screen shows it: its text, the options offered as
      buttons, and the option that counts as correct. (The later screen's
      struct also carries a random `id`, which no rule looks at.) */
  datatype Question = Question(text: string, options: seq<string>, answer: string)

  /** A question whose recorded answer is one of the options offered. */
  predicate WellFormed(q: Question) {
    q.answer in q.options
  }

  /** `(currentQuestionIndex + 1) % count`: the question after `i`, wrapping
      around to the first question after the last one. */
  function NextIndex(i: nat, count: nat): (j: nat)
    requires count > 0
    ensures j < count
    ensures i + 1 < count ==> j == i + 1
    ensures i + 1 == count ==> j == 0
  {
    (i + 1) % count
  }

  /** Stepping from an index reduced modulo `count` lands on `a + 1` reduced
      modulo `count`: the step commutes with the wrap-around. */
  lemma NextIndexOfMod(a: nat, count: nat)
    requires count > 0
    ensures NextIndex(a % count, count) == (a + 1) % count
  {
    var q, r := a / count, a % count;
    assert a == q * count + r;
    if r + 1 < count {
      ModUnique(a + 1, count, q, r + 1);
    } else {
      assert (q + 1) * count == q * count + count;
      ModUnique(a + 1, count, q + 1, 0);
    }
  }

  /** Reducing the left summand first does not change a sum's remainder. */
  lemma ModAddLeft(a: nat, b: nat, count: nat)
    requires count > 0
    ensures (a % count + b) % count == (a + b) % count
  {
    var q, r := a / count, a % count;
    var q2, r2 := (r + b) / count, (r + b) % count;
    assert a == q * count + r;
    assert r + b == q2 * count + r2;
    assert a + b == (q + q2) * count + r2;
    ModUnique(a + b, count, q + q2, r2);
  }

  /** Euclidean remainder is determined by any quotient/remainder split. */
  lemma ModUnique(a: nat, count: nat, q: int, r: int)
    requires count > 0 && 0 <= r < count && a == q * count + r
    ensures a % count == r
  {
    var q', r' := a / count, a % count;
    assert a == q' * count + r';
    MulSign(q - q', count);
    assert (q - q') * count == q * count - q' * count == r' - r;
  }

  /** A non-zero multiple of `c` is at least `c` away from zero. */
  lemma MulSign(d: int, c: int)
    requires c > 0
    ensures d >= 1 ==> d * c >= c
    ensures d <= -1 ==> d * c <= -c
  {
  }
}
