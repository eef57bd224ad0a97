/** The older expert of base.py. Its update rules are the same closed forms
    as experts/base.py, written out once more (the "don't know" rule takes the
    belief alone), and its construction checks the weights but never the
    records. */
module LegacyExpert {
  import opened Wrappers
  import opened BeliefEngine
  import opened ExpertModel

  /** `calculate_answer_no`. */
  function CalculateAnswerNo(p: real, pY: real, pN: real): (r: real)
    requires NoEvidence(p, pY, pN) != 0.0
    ensures r == AnswerNo(p, pY, pN)
  {
    ((1.0 - pY) * p) / ((1.0 - pY) * p + (1.0 - pN) * (1.0 - p))
  }

  /** `calculate_answer_probably_no`, with the expert's weights. */
  function CalculateAnswerProbablyNo(rates: Rates, p: real, pY: real, pN: real): (r: real)
    requires rates.gradation != 0 && NoEvidence(p, pY, pN) != 0.0
    ensures r == AnswerProbablyNo(rates, p, pY, pN)
    ensures (r - p) * (rates.gradation as real) == (p - CalculateAnswerNo(p, pY, pN)) * (rates.probablyNoRate as real)
  {
    p + (p - ((1.0 - pY) * p) / ((1.0 - pY) * p + (1.0 - pN) * (1.0 - p))) * (rates.probablyNoRate as real) / (rates.gradation as real)
  }

  /** `calculate_answer_do_not_know`: takes the belief alone and returns it;
      it is the engine's rule for any pair of conditional probabilities. */
  function CalculateAnswerDoNotKnow(p: real): (r: real)
    ensures forall pY: real, pN: real :: r == AnswerDoNotKnow(p, pY, pN)
  {
    p
  }

  /** `calculate_answer_probably`, with the expert's weights. */
  function CalculateAnswerProbably(rates: Rates, p: real, pY: real, pN: real): (r: real)
    requires rates.gradation != 0 && YesEvidence(p, pY, pN) != 0.0
    ensures r == AnswerProbably(rates, p, pY, pN)
    ensures (r - p) * (rates.gradation as real) == (CalculateAnswerYes(p, pY, pN) - p) * (rates.probablyRate as real)
  {
    p + ((pY * p) / (pY * p + pN * (1.0 - p)) - p) * (rates.probablyRate as real) / (rates.gradation as real)
  }

  /** `calculate_answer_yes`. */
  function CalculateAnswerYes(p: real, pY: real, pN: real): (r: real)
    requires YesEvidence(p, pY, pN) != 0.0
    ensures r == AnswerYes(p, pY, pN)
  {
    (pY * p) / (pY * p + pN * (1.0 - p))
  }

  /** `_check_rate_range` of base.py: the same condition as that of
      experts/base.py. */
  function LegacyCheckRateRange(rates: Rates): (ok: bool)
    ensures ok == CheckRateRange(rates)
  {
    -rates.gradation + 1 <= rates.probablyNoRate < 0 && 1 <= rates.probablyRate < rates.gradation
  }

  /** `Expert()` of base.py over the class's questions and records: the
      weights are checked and nothing else; the records are kept as they
      are, valid or not. */
  function Construct(questions: seq<string>, rates: Rates, outcomes: seq<Outcome>): (r: Result<ExpertState, ExpertError>)
    ensures r.Success? <==> CheckRateRange(rates)
    ensures r.Success? ==> r.value == ExpertState(questions, rates, outcomes)
    ensures r.Failure? ==> r.error == ProbabilityRatesException
  {
    if LegacyCheckRateRange(rates) then Success(ExpertState(questions, rates, outcomes))
    else Failure(ProbabilityRatesException)
  }

  /** Where the two constructions part: a record with a blank producer or
      model, or without an estimation for question 1, is accepted by base.py
      and rejected by experts/base.py. */
  lemma LegacySkipsValidation(questions: seq<string>, rates: Rates, outcomes: seq<Outcome>)
    requires CheckRateRange(rates)
    ensures Construct(questions, rates, outcomes).Success?
    ensures NewExpert(questions, rates, OutcomeList(outcomes)).Success? <==> forall o <- outcomes :: ValidOutcome(o)
  {
  }

  /** For a belief and conditional probabilities strictly between 0 and 1
      and valid weights, each legacy rule is defined and stays strictly
      between 0 and 1. */
  lemma LegacyRulesStayInUnit(rates: Rates, p: real, pY: real, pN: real)
    requires CheckRateRange(rates) && InUnit(p) && InUnit(pY) && InUnit(pN)
    ensures NoEvidence(p, pY, pN) != 0.0 && YesEvidence(p, pY, pN) != 0.0
    ensures InUnit(CalculateAnswerNo(p, pY, pN)) && InUnit(CalculateAnswerYes(p, pY, pN))
    ensures InUnit(CalculateAnswerProbablyNo(rates, p, pY, pN)) && InUnit(CalculateAnswerProbably(rates, p, pY, pN))
    ensures InUnit(CalculateAnswerDoNotKnow(p))
  {
    ApplyStaysInUnit(rates, No, p, pY, pN);
    ApplyStaysInUnit(rates, ProbablyNo, p, pY, pN);
    ApplyStaysInUnit(rates, Probably, p, pY, pN);
    ApplyStaysInUnit(rates, Yes, p, pY, pN);
  }
}
