/** The smooth relevance score of src/meno_rag/stand/rerank.py over real numbers.  `exp` is any function
    that is positive, strictly increasing and turns sums into products. */
module Scoring {
  import opened Reals
  import opened Text

  ghost predicate SumToProduct(exp: real -> real, x: real, y: real) {
    exp(x + y) == exp(x) * exp(y)
  }

  ghost predicate Increases(exp: real -> real, x: real, y: real) {
    x < y ==> exp(x) < exp(y)
  }

  ghost predicate ExpLaws(exp: real -> real) {
    (forall x :: exp(x) > 0.0) && (forall x, y :: SumToProduct(exp, x, y)) && (forall x, y :: Increases(exp, x, y))
  }

  function Max3(a: real, b: real, c: real): real {
    if a >= b && a >= c then a else if b >= c then b else c
  }

  /** After subtracting the maximum no exponent is positive and one is zero. */
  lemma ExponentsAreBounded(a: real, b: real, c: real)
    ensures var m := Max3(a, b, c);
            a - m <= 0.0 && b - m <= 0.0 && c - m <= 0.0 && (a - m == 0.0 || b - m == 0.0 || c - m == 0.0)
  {
  }

  /** `aggregate_logprobs_to_score`; None stands for the ValueError on other label sets. */
  function AggregateLogprobs(logprobs: map<int, real>, exp: real -> real): Option<real>
    requires forall x :: exp(x) > 0.0
  {
    if logprobs.Keys != {0, 1, 2} then None
    else Some(Score(logprobs[0], logprobs[1], logprobs[2], exp))
  }

  function Score(l0: real, l1: real, l2: real, exp: real -> real): real
    requires forall x :: exp(x) > 0.0
  {
    var m := Max3(l0, l1, l2);
    var e0, e1, e2 := exp(l0 - m), exp(l1 - m), exp(l2 - m);
    var total := e0 + e1 + e2;
    (0.0 * (e0 / total) + 1.0 * (e1 / total) + 2.0 * (e2 / total)) / 2.0
  }

  /** Expected label of the weights (a, b, c), halved. */
  function Expectation(a: real, b: real, c: real): real
    requires a > 0.0 && b > 0.0 && c > 0.0
  {
    (b + 2.0 * c) / (2.0 * (a + b + c))
  }

  /** A table of logprobs is scored when its labels are 0, 1 and 2, no fewer and no more. */
  lemma ScoredIff(logprobs: map<int, real>, exp: real -> real)
    requires forall x :: exp(x) > 0.0
    ensures AggregateLogprobs(logprobs, exp).Some? <==> forall n :: n in logprobs <==> 0 <= n <= 2
  {
    if forall n :: n in logprobs <==> 0 <= n <= 2 {
      assert logprobs.Keys == {0, 1, 2};
    }
  }

  lemma DivideUnique(x: real, y: real, q: real)
    requires y > 0.0 && q * y == x
    ensures x / y == q
  {
  }

  lemma DivisionCancels(x: real, y: real)
    requires y > 0.0
    ensures (x / y) * y == x
  {
  }

  lemma ScoreIsExpectation(a: real, b: real, c: real)
    requires a > 0.0 && b > 0.0 && c > 0.0
    ensures var t := a + b + c; (0.0 * (a / t) + 1.0 * (b / t) + 2.0 * (c / t)) / 2.0 == Expectation(a, b, c)
  {
  }

  lemma ExpectationScales(a: real, b: real, c: real, k: real)
    requires a > 0.0 && b > 0.0 && c > 0.0 && k > 0.0
    ensures a * k > 0.0 && b * k > 0.0 && c * k > 0.0
    ensures Expectation(a * k, b * k, c * k) == Expectation(a, b, c)
  {
  }

  /** Subtracting the maximum first changes nothing: the score is half the expected label of the softmax. */
  lemma ScoreIsSoftmaxExpectation(l0: real, l1: real, l2: real, exp: real -> real)
    requires ExpLaws(exp)
    ensures Score(l0, l1, l2, exp) == Expectation(exp(l0), exp(l1), exp(l2))
  {
    var m := Max3(l0, l1, l2);
    var a, b, c := exp(l0 - m), exp(l1 - m), exp(l2 - m);
    ScoreIsExpectation(a, b, c);
    SplitOff(l0, m, exp);
    SplitOff(l1, m, exp);
    SplitOff(l2, m, exp);
    ExpectationScales(a, b, c, exp(m));
  }

  lemma SplitOff(l: real, m: real, exp: real -> real)
    requires ExpLaws(exp)
    ensures exp(l) == exp(l - m) * exp(m)
  {
    assert SumToProduct(exp, l - m, m);
    assert (l - m) + m == l;
  }

  lemma Less(p: real, q: real, x: real, y: real)
    requires q > 0.0 && y > 0.0 && p * y < x * q
    ensures p / q < x / y
  {
  }

  /** Strictly between 0 and 1 in exact arithmetic, so a filter `> 0` never drops a scored chunk. */
  lemma ScoreIsInsideUnitInterval(l0: real, l1: real, l2: real, exp: real -> real)
    requires ExpLaws(exp)
    ensures 0.0 < Score(l0, l1, l2, exp) < 1.0
  {
    ScoreIsSoftmaxExpectation(l0, l1, l2, exp);
    var a, b, c := exp(l0), exp(l1), exp(l2);
    Less(0.0, 1.0, b + 2.0 * c, 2.0 * (a + b + c));
    Less(b + 2.0 * c, 2.0 * (a + b + c), 1.0, 1.0);
  }

  /** Only differences of logprobs matter. */
  lemma ScoreIsShiftInvariant(l0: real, l1: real, l2: real, d: real, exp: real -> real)
    requires ExpLaws(exp)
    ensures Score(l0 + d, l1 + d, l2 + d, exp) == Score(l0, l1, l2, exp)
  {
  }

  /** More evidence for label 2 raises the score, more evidence for label 0 lowers it. */
  lemma ScoreIsMonotone(l0: real, l1: real, l2: real, up: real, exp: real -> real)
    requires ExpLaws(exp) && up > 0.0
    ensures Score(l0, l1, l2 + up, exp) > Score(l0, l1, l2, exp)
    ensures Score(l0 + up, l1, l2, exp) < Score(l0, l1, l2, exp)
  {
    ScoreIsSoftmaxExpectation(l0, l1, l2, exp);
    ScoreIsSoftmaxExpectation(l0, l1, l2 + up, exp);
    ScoreIsSoftmaxExpectation(l0 + up, l1, l2, exp);
    var a, b, c, a', c' := exp(l0), exp(l1), exp(l2), exp(l0 + up), exp(l2 + up);
    assert Increases(exp, l0, l0 + up) && Increases(exp, l2, l2 + up);
    RaisingTop(a, b, c, c');
    RaisingBottom(a, b, c, a');
  }

  lemma RaisingTop(a: real, b: real, c: real, c': real)
    requires a > 0.0 && b > 0.0 && 0.0 < c < c'
    ensures Expectation(a, b, c) < Expectation(a, b, c')
  {
    assert (b + 2.0 * c') * (2.0 * (a + b + c)) - (b + 2.0 * c) * (2.0 * (a + b + c'))
        == (c' - c) * (4.0 * a + 2.0 * b);
    PositiveProduct(c' - c, 4.0 * a + 2.0 * b, (c' - c) * (4.0 * a + 2.0 * b));
    Less(b + 2.0 * c, 2.0 * (a + b + c), b + 2.0 * c', 2.0 * (a + b + c'));
  }

  lemma RaisingBottom(a: real, b: real, c: real, a': real)
    requires 0.0 < a < a' && b > 0.0 && c > 0.0
    ensures Expectation(a', b, c) < Expectation(a, b, c)
  {
    assert (b + 2.0 * c) * (2.0 * (a' + b + c)) - (b + 2.0 * c) * (2.0 * (a + b + c))
        == (a' - a) * (2.0 * (b + 2.0 * c));
    PositiveProduct(a' - a, 2.0 * (b + 2.0 * c), (a' - a) * (2.0 * (b + 2.0 * c)));
    Less(b + 2.0 * c, 2.0 * (a' + b + c), b + 2.0 * c, 2.0 * (a + b + c));
  }

  /** The one-hot logprobs of the JSON fallback. */
  function OneHot(predicted: int): map<int, real> {
    map[0 := if predicted == 0 then 0.0 else -100.0,
        1 := if predicted == 1 then 0.0 else -100.0,
        2 := if predicted == 2 then 0.0 else -100.0]
  }

  lemma OneHotScores(exp: real -> real)
    requires ExpLaws(exp)
    ensures var one, e := exp(0.0), exp(-100.0);
            && one > e > 0.0
            && AggregateLogprobs(OneHot(0), exp) == Some(Expectation(one, e, e))
            && AggregateLogprobs(OneHot(1), exp) == Some(Expectation(e, one, e))
            && AggregateLogprobs(OneHot(2), exp) == Some(Expectation(e, e, one))
  {
    assert Increases(exp, -100.0, 0.0);
    ScoreIsSoftmaxExpectation(0.0, -100.0, -100.0, exp);
    ScoreIsSoftmaxExpectation(-100.0, 0.0, -100.0, exp);
    ScoreIsSoftmaxExpectation(-100.0, -100.0, 0.0, exp);
    assert OneHot(0).Keys == OneHot(1).Keys == OneHot(2).Keys == {0, 1, 2};
  }

  lemma CancelOne(sum: real, t: real, product: real)
    requires t > 0.0 && product == sum * t && product == t
    ensures sum == 1.0
  {
  }

  lemma SumIsOne(p: real, q: real, x: real, y: real, t: real)
    requires t > 0.0 && p * t == x && q * t == y && x + y == t
    ensures p + q == 1.0
  {
    var sum := p + q;
    var product := sum * t;
    Distributes(p, q, sum, t);
    assert product == x + y;
    CancelOne(sum, t, product);
  }

  lemma SumOfQuotients(x: real, y: real, t: real)
    requires t > 0.0 && x + y == t
    ensures x / t + y / t == 1.0
  {
    DivisionCancels(x, t);
    DivisionCancels(y, t);
    SumIsOne(x / t, y / t, x, y, t);
  }

  lemma Middle(one: real, e: real)
    requires one > e > 0.0
    ensures Expectation(e, one, e) == 0.5
  {
    DivideUnique(one + 2.0 * e, 2.0 * (e + one + e), 0.5);
  }

  /** Two labels hot at the ends mirror each other around one half. */
  lemma Mirrored(one: real, e: real)
    requires one > e > 0.0
    ensures 0.0 < Expectation(one, e, e) < 0.5 < Expectation(e, e, one) < 1.0
    ensures Expectation(one, e, e) + Expectation(e, e, one) == 1.0
  {
    var t := 2.0 * (one + e + e);
    assert 2.0 * (e + e + one) == t;
    Less(0.0, 1.0, e + 2.0 * e, t);
    Less(e + 2.0 * e, t, 1.0, 2.0);
    Less(1.0, 2.0, e + 2.0 * one, t);
    Less(e + 2.0 * one, t, 1.0, 1.0);
    SumOfQuotients(e + 2.0 * e, e + 2.0 * one, t);
  }

  /** In exact arithmetic: label 1 scores one half, the other two mirror each other around it, and the floor of -100
      keeps both off the ends.  In doubles the remainder survives at label 0, whose score is about 5.6e-44 and not
      the documented 0.0; at label 2 it is rounded away and the score is the documented 1.0. */
  lemma FallbackScores(exp: real -> real)
    requires ExpLaws(exp)
    ensures AggregateLogprobs(OneHot(1), exp) == Some(0.5)
    ensures AggregateLogprobs(OneHot(0), exp).value < 0.5 < AggregateLogprobs(OneHot(2), exp).value
    ensures 0.0 < AggregateLogprobs(OneHot(0), exp).value && AggregateLogprobs(OneHot(2), exp).value < 1.0
    ensures AggregateLogprobs(OneHot(0), exp).value + AggregateLogprobs(OneHot(2), exp).value == 1.0
  {
    var one, e := exp(0.0), exp(-100.0);
    OneHotScores(exp);
    Middle(one, e);
    Mirrored(one, e);
  }
}
