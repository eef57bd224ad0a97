/** The belief-update rules of the expert system (experts/base.py): how one
    candidate's probability is revised after one answer, and the check of the
    "probably" weights. Beliefs and conditional probabilities are the
    program's `Decimal` values, modelled as exact reals. */
module BeliefEngine {
  import opened Wrappers

  /** The five answer categories, in the order of `handle_answer`'s rate
      numbers 0..4. */
  datatype Answer = No | ProbablyNo | DoNotKnow | Probably | Yes

  /** The rate number `handle_answer` uses for each answer category. */
  function RateOf(a: Answer): (rate: int)
    ensures 0 <= rate < 5
  {
    match a
    case No => 0
    case ProbablyNo => 1
    case DoNotKnow => 2
    case Probably => 3
    case Yes => 4
  }

  /** `handle_answer`'s dispatch table from rate numbers to update rules:
      exactly the rates 0..4 name a rule, and each names the rule whose
      rate number it is. */
  function AnswerOfRate(rate: int): (a: Option<Answer>)
    ensures a.Some? <==> 0 <= rate < 5
    ensures a.Some? ==> RateOf(a.value) == rate
  {
    if rate == 0 then Some(No)
    else if rate == 1 then Some(ProbablyNo)
    else if rate == 2 then Some(DoNotKnow)
    else if rate == 3 then Some(Probably)
    else if rate == 4 then Some(Yes)
    else None
  }

  /** The class-level weights of an expert: the resolution of the partial
      answers and the weights of "Probably no" and "Probably". */
  datatype Rates = Rates(gradation: int, probablyNoRate: int, probablyRate: int)

  /** The weights every expert class of the program uses. */
  const DefaultRates := Rates(5, -3, 3)

  /** Python's `x in range(lo, hi)` for an integer `x`. */
  predicate InRange(x: int, lo: int, hi: int) {
    lo <= x < hi
  }

  /** `_check_rate_range`: true when the construction of an expert may go on,
      false when it raises `ProbabilityRatesException`. The weights must lie
      strictly inside (-gradation, 0) and (0, gradation). */
  function CheckRateRange(r: Rates): (ok: bool)
    ensures ok <==> -r.gradation < r.probablyNoRate < 0 && 0 < r.probablyRate < r.gradation
    ensures ok ==> r.gradation >= 2
  {
    InRange(r.probablyNoRate, -r.gradation + 1, 0) && InRange(r.probablyRate, 1, r.gradation)
  }

  lemma DefaultRatesAccepted()
    ensures CheckRateRange(DefaultRates)
  {
  }

  predicate InUnit(x: real) {
    0.0 < x < 1.0
  }

  /** `x` lies on the closed segment between `a` and `b`, in either order. */
  predicate Between(x: real, a: real, b: real) {
    (a <= x <= b) || (b <= x <= a)
  }

  /** The probability of a "yes" answer, `p_y·p + p_n·(1−p)`: the denominator
      of the Yes rule. */
  function YesEvidence(p: real, pY: real, pN: real): real {
    pY * p + pN * (1.0 - p)
  }

  /** The probability of a "no" answer, `(1−p_y)·p + (1−p_n)·(1−p)`: the
      denominator of the No rule. */
  function NoEvidence(p: real, pY: real, pN: real): real {
    (1.0 - pY) * p + (1.0 - pN) * (1.0 - p)
  }

  /** `_calculate_answer_yes`: Bayes' theorem, the posterior times the
      evidence is the joint probability `p_y·p`. */
  function AnswerYes(p: real, pY: real, pN: real): (r: real)
    requires YesEvidence(p, pY, pN) != 0.0
    ensures r * YesEvidence(p, pY, pN) == pY * p
  {
    (pY * p) / (pY * p + pN * (1.0 - p))
  }

  /** `_calculate_answer_no`: Bayes' theorem with the complementary
      likelihoods `1−p_y` and `1−p_n`. */
  function AnswerNo(p: real, pY: real, pN: real): (r: real)
    requires NoEvidence(p, pY, pN) != 0.0
    ensures r * NoEvidence(p, pY, pN) == (1.0 - pY) * p
  {
    ((1.0 - pY) * p) / ((1.0 - pY) * p + (1.0 - pN) * (1.0 - p))
  }

  /** `_calculate_answer_do_not_know`: the belief is returned unchanged,
      whatever the conditional probabilities. */
  function AnswerDoNotKnow(p: real, pY: real, pN: real): (r: real)
    ensures r == p
  {
    p
  }

  /** `_calculate_answer_probably`: the distance from `p` to the Yes update,
      scaled by `probably_rate / rate_gradation`. */
  function AnswerProbably(rates: Rates, p: real, pY: real, pN: real): (r: real)
    requires rates.gradation != 0 && YesEvidence(p, pY, pN) != 0.0
    ensures (r - p) * (rates.gradation as real) == (AnswerYes(p, pY, pN) - p) * (rates.probablyRate as real)
  {
    p + ((pY * p) / (pY * p + pN * (1.0 - p)) - p) * (rates.probablyRate as real) / (rates.gradation as real)
  }

  /** `_calculate_answer_probably_no`: the distance from the No update to
      `p`, scaled by the negative `probably_no_rate / rate_gradation`. */
  function AnswerProbablyNo(rates: Rates, p: real, pY: real, pN: real): (r: real)
    requires rates.gradation != 0 && NoEvidence(p, pY, pN) != 0.0
    ensures (r - p) * (rates.gradation as real) == (p - AnswerNo(p, pY, pN)) * (rates.probablyNoRate as real)
  {
    p + (p - ((1.0 - pY) * p) / ((1.0 - pY) * p + (1.0 - pN) * (1.0 - p))) * (rates.probablyNoRate as real) / (rates.gradation as real)
  }

  /** The rule for `a` can be evaluated: none of its divisions is by zero.
      Where this fails the program raises a `decimal` division error. */
  predicate Defined(rates: Rates, a: Answer, p: real, pY: real, pN: real) {
    match a
    case No => NoEvidence(p, pY, pN) != 0.0
    case ProbablyNo => rates.gradation != 0 && NoEvidence(p, pY, pN) != 0.0
    case DoNotKnow => true
    case Probably => rates.gradation != 0 && YesEvidence(p, pY, pN) != 0.0
    case Yes => YesEvidence(p, pY, pN) != 0.0
  }

  /** The update rule for answer `a`: Bayes' rule for Yes and No, the
      weighted steps towards them for Probably and Probably No, no change
      for Do Not Know. */
  function Apply(rates: Rates, a: Answer, p: real, pY: real, pN: real): (r: real)
    requires Defined(rates, a, p, pY, pN)
    ensures a == Yes ==> r * YesEvidence(p, pY, pN) == pY * p
    ensures a == No ==> r * NoEvidence(p, pY, pN) == (1.0 - pY) * p
    ensures a == DoNotKnow ==> r == p
    ensures a == Probably ==>
              (r - p) * (rates.gradation as real) == (AnswerYes(p, pY, pN) - p) * (rates.probablyRate as real)
    ensures a == ProbablyNo ==>
              (r - p) * (rates.gradation as real) == (p - AnswerNo(p, pY, pN)) * (rates.probablyNoRate as real)
  {
    match a
    case No => AnswerNo(p, pY, pN)
    case ProbablyNo => AnswerProbablyNo(rates, p, pY, pN)
    case DoNotKnow => AnswerDoNotKnow(p, pY, pN)
    case Probably => AnswerProbably(rates, p, pY, pN)
    case Yes => AnswerYes(p, pY, pN)
  }

  // ---------------------------------------------------------------------
  // Properties of the rules

  lemma MulPositive(a: real, b: real)
    requires a > 0.0 && b > 0.0
    ensures a * b > 0.0
  {
  }

  /** Multiplying by a positive factor keeps signs and order. */
  lemma FactorOrder(x: real, y: real, d: real)
    requires d > 0.0
    ensures x * d < y * d <==> x < y
    ensures x * d == y * d <==> x == y
  {
    if x < y {
      MulPositive(y - x, d);
    } else if y < x {
      MulPositive(x - y, d);
    }
  }

  /** For a belief and conditional probabilities strictly between 0 and 1,
      both answers have positive probability, so neither Bayes rule divides
      by zero. */
  lemma EvidencePositive(p: real, pY: real, pN: real)
    requires InUnit(p) && InUnit(pY) && InUnit(pN)
    ensures YesEvidence(p, pY, pN) > 0.0 && NoEvidence(p, pY, pN) > 0.0
  {
    var q, qY, qN := 1.0 - p, 1.0 - pY, 1.0 - pN;
    MulPositive(pY, p);
    MulPositive(pN, q);
    MulPositive(qY, p);
    MulPositive(qN, q);
    assert NoEvidence(p, pY, pN) == qY * p + qN * q;
  }

  /** A quotient `a / d` with `0 < a < d` lies strictly between 0 and 1,
      stated through `r * d == a`. */
  lemma RatioInUnit(r: real, a: real, d: real)
    requires 0.0 < a < d && r * d == a
    ensures InUnit(r)
  {
    FactorOrder(0.0, r, d);
    FactorOrder(r, 1.0, d);
  }

  /** The Yes rule keeps a belief strictly between 0 and 1. */
  lemma YesStaysInUnit(p: real, pY: real, pN: real)
    requires InUnit(p) && InUnit(pY) && InUnit(pN)
    ensures YesEvidence(p, pY, pN) > 0.0 && InUnit(AnswerYes(p, pY, pN))
  {
    var q := 1.0 - p;
    MulPositive(pY, p);
    MulPositive(pN, q);
    assert YesEvidence(p, pY, pN) == pY * p + pN * q;
    RatioInUnit(AnswerYes(p, pY, pN), pY * p, YesEvidence(p, pY, pN));
  }

  /** The No rule keeps a belief strictly between 0 and 1. */
  lemma NoStaysInUnit(p: real, pY: real, pN: real)
    requires InUnit(p) && InUnit(pY) && InUnit(pN)
    ensures NoEvidence(p, pY, pN) > 0.0 && InUnit(AnswerNo(p, pY, pN))
  {
    var q, qY, qN := 1.0 - p, 1.0 - pY, 1.0 - pN;
    MulPositive(qY, p);
    MulPositive(qN, q);
    assert NoEvidence(p, pY, pN) == qY * p + qN * q;
    RatioInUnit(AnswerNo(p, pY, pN), qY * p, NoEvidence(p, pY, pN));
  }

  /** The No rule is the Yes rule applied to the complementary likelihoods. */
  lemma NoIsYesOfComplements(p: real, pY: real, pN: real)
    requires NoEvidence(p, pY, pN) != 0.0
    ensures YesEvidence(p, 1.0 - pY, 1.0 - pN) == NoEvidence(p, pY, pN)
    ensures AnswerNo(p, pY, pN) == AnswerYes(p, 1.0 - pY, 1.0 - pN)
  {
  }

  /** How far the Yes rule moves a belief: `p·(1−p)·(p_y − p_n)` over the
      evidence. */
  lemma YesShift(p: real, pY: real, pN: real)
    requires YesEvidence(p, pY, pN) != 0.0
    ensures (AnswerYes(p, pY, pN) - p) * YesEvidence(p, pY, pN) == p * (1.0 - p) * (pY - pN)
  {
    var d := YesEvidence(p, pY, pN);
    calc {
      (AnswerYes(p, pY, pN) - p) * d;
      AnswerYes(p, pY, pN) * d - p * d;
      pY * p - p * d;
      { assert p * d == p * pY * p + p * pN * (1.0 - p); }
      p * (1.0 - p) * (pY - pN);
    }
  }

  /** A "yes" raises the belief exactly when the candidate is more likely
      to be answered "yes" to than the others (`p_y > p_n`), and leaves it
      unchanged exactly when both are equally likely. */
  lemma YesRaisesBeliefIff(p: real, pY: real, pN: real)
    requires InUnit(p) && InUnit(pY) && InUnit(pN)
    ensures YesEvidence(p, pY, pN) > 0.0
    ensures AnswerYes(p, pY, pN) > p <==> pY > pN
    ensures AnswerYes(p, pY, pN) == p <==> pY == pN
  {
    EvidencePositive(p, pY, pN);
    YesShift(p, pY, pN);
    var d, shift := YesEvidence(p, pY, pN), AnswerYes(p, pY, pN) - p;
    MulPositive(p, 1.0 - p);
    var w := p * (1.0 - p);
    assert shift * d == w * (pY - pN);
    FactorOrder(0.0, shift, d);
    FactorOrder(0.0, pY - pN, w);
  }

  /** A "no" lowers the belief exactly when `p_y > p_n`, and leaves it
      unchanged exactly when `p_y == p_n`. */
  lemma NoLowersBeliefIff(p: real, pY: real, pN: real)
    requires InUnit(p) && InUnit(pY) && InUnit(pN)
    ensures NoEvidence(p, pY, pN) > 0.0
    ensures AnswerNo(p, pY, pN) < p <==> pY > pN
    ensures AnswerNo(p, pY, pN) == p <==> pY == pN
  {
    EvidencePositive(p, pY, pN);
    NoIsYesOfComplements(p, pY, pN);
    YesRaisesBeliefIff(p, 1.0 - pY, 1.0 - pN);
  }

  /** With valid weights, "Probably" lands on the segment between the old
      belief and the full Yes update, strictly inside it unless the Yes
      update leaves the belief where it was. */
  lemma ProbablyBetween(rates: Rates, p: real, pY: real, pN: real)
    requires CheckRateRange(rates) && YesEvidence(p, pY, pN) != 0.0
    ensures Between(AnswerProbably(rates, p, pY, pN), p, AnswerYes(p, pY, pN))
    ensures AnswerYes(p, pY, pN) != p ==>
              AnswerProbably(rates, p, pY, pN) != p && AnswerProbably(rates, p, pY, pN) != AnswerYes(p, pY, pN)
    ensures AnswerYes(p, pY, pN) == p ==> AnswerProbably(rates, p, pY, pN) == p
  {
    var g, w := rates.gradation as real, rates.probablyRate as real;
    var r, y := AnswerProbably(rates, p, pY, pN), AnswerYes(p, pY, pN);
    assert (r - p) * g == (y - p) * w;
    ScaledStep(r - p, y - p, g, w);
  }

  /** With valid weights, "Probably no" lands on the segment between the old
      belief and the full No update, strictly inside it unless the No update
      leaves the belief where it was. */
  lemma ProbablyNoBetween(rates: Rates, p: real, pY: real, pN: real)
    requires CheckRateRange(rates) && NoEvidence(p, pY, pN) != 0.0
    ensures Between(AnswerProbablyNo(rates, p, pY, pN), p, AnswerNo(p, pY, pN))
    ensures AnswerNo(p, pY, pN) != p ==>
              AnswerProbablyNo(rates, p, pY, pN) != p && AnswerProbablyNo(rates, p, pY, pN) != AnswerNo(p, pY, pN)
    ensures AnswerNo(p, pY, pN) == p ==> AnswerProbablyNo(rates, p, pY, pN) == p
  {
    var g, w := rates.gradation as real, -(rates.probablyNoRate as real);
    var r, n := AnswerProbablyNo(rates, p, pY, pN), AnswerNo(p, pY, pN);
    assert (r - p) * g == (n - p) * w;
    ScaledStep(r - p, n - p, g, w);
  }

  /** If `s·g == t·w` with `0 < w < g`, then `s` is `t` shrunk towards 0:
      same sign, strictly smaller in size unless both are 0. */
  lemma ScaledStep(s: real, t: real, g: real, w: real)
    requires 0.0 < w < g && s * g == t * w
    ensures (t >= 0.0 ==> 0.0 <= s <= t) && (t <= 0.0 ==> t <= s <= 0.0)
    ensures t != 0.0 ==> s != 0.0 && s != t
  {
    FactorOrder(0.0, s, g);
    FactorOrder(0.0, t, w);
    if t > 0.0 {
      FactorOrder(w, g, t);
      FactorOrder(s, t, g);
    } else if t < 0.0 {
      FactorOrder(w, g, -t);
      FactorOrder(t, s, g);
    }
  }

  /** With valid weights and a belief and conditional probabilities strictly
      between 0 and 1, every rule is defined and keeps the belief strictly
      between 0 and 1. */
  lemma ApplyStaysInUnit(rates: Rates, a: Answer, p: real, pY: real, pN: real)
    requires CheckRateRange(rates) && InUnit(p) && InUnit(pY) && InUnit(pN)
    ensures Defined(rates, a, p, pY, pN) && InUnit(Apply(rates, a, p, pY, pN))
  {
    EvidencePositive(p, pY, pN);
    match a
    case No => NoStaysInUnit(p, pY, pN);
    case ProbablyNo =>
      NoStaysInUnit(p, pY, pN);
      ProbablyNoBetween(rates, p, pY, pN);
    case DoNotKnow =>
    case Probably =>
      YesStaysInUnit(p, pY, pN);
      ProbablyBetween(rates, p, pY, pN);
    case Yes => YesStaysInUnit(p, pY, pN);
  }
}
