/** The expert of experts/base.py: a category's questions, its outcome
    records (one per candidate product) and the weights of the partial
    answers. Construction checks the weights and the records; every answer
    rewrites each record's belief in place; the result is the record with the
    highest belief. */
module ExpertModel {
  import opened Wrappers
  import opened BeliefEngine

  /** A candidate's conditional probabilities for one question: of a "yes"
      when it is the right product (`probability_in_presence`) and when it is
      not (`probability_in_absence`). */
  datatype Estimation = Estimation(inPresence: real, inAbsence: real)

  /** One outcome record. `belief` is `priori_probability`; `estimations` is
      `questions_estimation`, keyed by the 1-based question number. */
  datatype Outcome = Outcome(
    id: int,
    producer: string,
    model: string,
    imageId: Option<string>,
    description: string,
    belief: real,
    estimations: map<int, Estimation>)

  /** The exceptions an expert raises. */
  datatype ExpertError =
    | ProbabilityRatesException    // weights out of range, at construction
    | NotAListError                // TypeError: the outcomes are not a list
    | OutcomesValidationException  // a record fails the schema
    | RangeException               // an answer rate outside 0..4
    | MissingEstimation            // KeyError: no estimation for the question
    | DivisionError                // a division by zero in an update rule
    | EmptyOutcomes                // ValueError: the maximum of no records

  /** The outcomes a catalog supplies: a list of records or some other value. */
  datatype OutcomesData = OutcomeList(items: seq<Outcome>) | NotAList

  /** The record schema. The field types are those of `Outcome`; beyond them
      the schema refuses a blank producer or model (a plain string field),
      while the description and the image id may be blank, and it asks for
      the estimations of question 1, allowing but not requiring those of
      further questions. */
  predicate ValidOutcome(o: Outcome) {
    o.producer != "" && o.model != "" && 1 in o.estimations
  }

  /** `_validate_outcome_dicts`: a `TypeError` for a non-list, otherwise the
      first record that fails the schema raises
      `OutcomesValidationException`. */
  method ValidateOutcomeDicts(data: OutcomesData) returns (err: Option<ExpertError>)
    ensures err.None? <==> data.OutcomeList? && forall o <- data.items :: ValidOutcome(o)
    ensures data.NotAList? ==> err == Some(NotAListError)
    ensures data.OutcomeList? && err.Some? ==> err == Some(OutcomesValidationException)
  {
    if data.NotAList? {
      return Some(NotAListError);
    }
    var i := 0;
    while i < |data.items|
      invariant 0 <= i <= |data.items|
      invariant forall j :: 0 <= j < i ==> ValidOutcome(data.items[j])
    {
      if !ValidOutcome(data.items[i]) {
        return Some(OutcomesValidationException);
      }
      i := i + 1;
    }
    return None;
  }

  /** The state of one expert: its questions, its weights and its records. */
  datatype ExpertState = ExpertState(questions: seq<string>, rates: Rates, outcomes: seq<Outcome>)
  {
    /** What a successful construction guarantees. */
    predicate Valid() {
      CheckRateRange(rates) && forall o <- outcomes :: ValidOutcome(o)
    }

    /** `get_result`: the record of highest belief, the first of them on a
        tie; the maximum of no records raises `ValueError`. */
    function GetResult(): (r: Result<Outcome, ExpertError>)
      ensures r.Failure? <==> |outcomes| == 0
      ensures r.Failure? ==> r.error == EmptyOutcomes
      ensures r.Success? ==> r.value in outcomes
      ensures r.Success? ==> forall o <- outcomes :: o.belief <= r.value.belief
      ensures r.Success? ==> r.value == outcomes[FirstMaxIndex(outcomes)]
    {
      if |outcomes| == 0 then Failure(EmptyOutcomes)
      else Success(outcomes[FirstMaxIndex(outcomes)])
    }
  }

  /** Where Python's `max(outcomes, key=belief)` stops: scanning from the
      left, a record replaces the best so far only when its belief is
      strictly greater. The result is a maximum, and every earlier record is
      strictly below it. */
  function FirstMaxIndex(os: seq<Outcome>): (k: nat)
    requires |os| > 0
    ensures k < |os|
    ensures forall j :: 0 <= j < |os| ==> os[j].belief <= os[k].belief
    ensures forall j :: 0 <= j < k ==> os[j].belief < os[k].belief
  {
    if |os| == 1 then 0
    else
      var k := FirstMaxIndex(os[..|os| - 1]);
      if os[|os| - 1].belief > os[k].belief then |os| - 1 else k
  }

  /** `Expert.__init__` once the data are loaded: the weights are checked
      first, then the records. */
  function NewExpert(questions: seq<string>, rates: Rates, data: OutcomesData): (r: Result<ExpertState, ExpertError>)
    ensures r.Success? <==>
              CheckRateRange(rates) && data.OutcomeList? && forall o <- data.items :: ValidOutcome(o)
    ensures r.Success? ==> r.value.Valid() && r.value == ExpertState(questions, rates, data.items)
    ensures !CheckRateRange(rates) ==> r == Failure(ProbabilityRatesException)
    ensures CheckRateRange(rates) && data.NotAList? ==> r == Failure(NotAListError)
  {
    if !CheckRateRange(rates) then Failure(ProbabilityRatesException)
    else if data.NotAList? then Failure(NotAListError)
    else if forall o <- data.items :: ValidOutcome(o) then Success(ExpertState(questions, rates, data.items))
    else Failure(OutcomesValidationException)
  }

  /** `_get_probabilities_from_outcome`, and base.py's
      `get_probabilities_from_outcome`, which reads the same: the belief and
      the conditional pair stored under `questionNumber`, used as given (no
      shift); a missing key raises `KeyError`. */
  function GetProbabilities(o: Outcome, questionNumber: int): (r: Result<(real, real, real), ExpertError>)
    ensures r.Success? <==> questionNumber in o.estimations
    ensures r.Success? ==> r.value.0 == o.belief
    ensures r.Success? ==> r.value.1 == o.estimations[questionNumber].inPresence
    ensures r.Success? ==> r.value.2 == o.estimations[questionNumber].inAbsence
    ensures r.Failure? ==> r.error == MissingEstimation
  {
    if questionNumber in o.estimations then
      var e := o.estimations[questionNumber];
      Success((o.belief, e.inPresence, e.inAbsence))
    else Failure(MissingEstimation)
  }

  /** The record can be revised for answer `a` on question `key`: its
      estimation exists and the rule divides by no zero. */
  predicate Revisable(rates: Rates, a: Answer, key: int, o: Outcome) {
    key in o.estimations &&
    Defined(rates, a, o.belief, o.estimations[key].inPresence, o.estimations[key].inAbsence)
  }

  /** One pass of `handle_answer`'s loop body: look up the record's
      probabilities, then overwrite its belief with the rule's value. */
  function Revise(rates: Rates, a: Answer, key: int, o: Outcome): (r: Result<Outcome, ExpertError>)
    ensures r.Success? <==> Revisable(rates, a, key, o)
    ensures r.Success? ==> r.value.(belief := o.belief) == o
    ensures r.Success? ==>
              r.value.belief == Apply(rates, a, o.belief, o.estimations[key].inPresence, o.estimations[key].inAbsence)
    ensures r.Failure? ==> r.error == (if key in o.estimations then DivisionError else MissingEstimation)
  {
    match GetProbabilities(o, key)
    case Failure(e) => Failure(e)
    case Success(probs) =>
      var (p, pY, pN) := probs;
      if Defined(rates, a, p, pY, pN) then Success(o.(belief := Apply(rates, a, p, pY, pN)))
      else Failure(DivisionError)
  }

  /** The records after a pass of `handle_answer`, with the exception it
      raised if any. */
  datatype Revision = Revision(outcomes: seq<Outcome>, error: Option<ExpertError>)

  /** The index of the first record that cannot be revised, or `|os|`. */
  function FirstFailure(rates: Rates, a: Answer, key: int, os: seq<Outcome>): (k: nat)
    ensures k <= |os|
    ensures forall j :: 0 <= j < k ==> Revisable(rates, a, key, os[j])
    ensures k < |os| ==> !Revisable(rates, a, key, os[k])
  {
    if os == [] then 0
    else if !Revisable(rates, a, key, os[0]) then 0
    else 1 + FirstFailure(rates, a, key, os[1..])
  }

  /** The loop of `handle_answer` over the records, in order: every record
      before the first one that fails is revised, that one raises, and it
      and all later records are left as they were. */
  function ReviseEach(rates: Rates, a: Answer, key: int, os: seq<Outcome>): (r: Revision)
    ensures |r.outcomes| == |os|
  {
    if os == [] then Revision([], None)
    else
      match Revise(rates, a, key, os[0])
      case Failure(e) => Revision(os, Some(e))
      case Success(o) =>
        var rest := ReviseEach(rates, a, key, os[1..]);
        Revision([o] + rest.outcomes, rest.error)
  }

  /** The records before the first one that fails are revised. */
  lemma {:induction false} ReviseEachRevisesPrefix(rates: Rates, a: Answer, key: int, os: seq<Outcome>)
    ensures forall j :: 0 <= j < FirstFailure(rates, a, key, os) ==>
              ReviseEach(rates, a, key, os).outcomes[j] == Revise(rates, a, key, os[j]).value
  {
    if os != [] && Revise(rates, a, key, os[0]).Success? {
      ReviseEachRevisesPrefix(rates, a, key, os[1..]);
      var r, rest := ReviseEach(rates, a, key, os), ReviseEach(rates, a, key, os[1..]);
      assert r.outcomes == [Revise(rates, a, key, os[0]).value] + rest.outcomes;
      forall j | 0 < j < FirstFailure(rates, a, key, os)
        ensures r.outcomes[j] == Revise(rates, a, key, os[j]).value
      {
        assert os[j] == os[1..][j - 1];
      }
    }
  }

  /** The first record that fails and every later one are left alone. */
  lemma {:induction false} ReviseEachKeepsSuffix(rates: Rates, a: Answer, key: int, os: seq<Outcome>)
    ensures forall j :: FirstFailure(rates, a, key, os) <= j < |os| ==>
              ReviseEach(rates, a, key, os).outcomes[j] == os[j]
  {
    if os != [] && Revise(rates, a, key, os[0]).Success? {
      ReviseEachKeepsSuffix(rates, a, key, os[1..]);
      var r, rest := ReviseEach(rates, a, key, os), ReviseEach(rates, a, key, os[1..]);
      assert r.outcomes == [Revise(rates, a, key, os[0]).value] + rest.outcomes;
      forall j | FirstFailure(rates, a, key, os) <= j < |os|
        ensures r.outcomes[j] == os[j]
      {
        assert r.outcomes[j] == rest.outcomes[j - 1] && os[j] == os[1..][j - 1];
      }
    }
  }

  /** The pass raises exactly when some record fails, with that record's
      error. */
  lemma {:induction false} ReviseEachRaisesAtFailure(rates: Rates, a: Answer, key: int, os: seq<Outcome>)
    ensures ReviseEach(rates, a, key, os).error.None? <==> FirstFailure(rates, a, key, os) == |os|
    ensures ReviseEach(rates, a, key, os).error.Some? ==>
              ReviseEach(rates, a, key, os).error.value == Revise(rates, a, key, os[FirstFailure(rates, a, key, os)]).error
  {
    if os != [] && Revise(rates, a, key, os[0]).Success? {
      ReviseEachRaisesAtFailure(rates, a, key, os[1..]);
      assert os[1..][FirstFailure(rates, a, key, os[1..])..] == os[FirstFailure(rates, a, key, os)..];
    }
  }

  /** What `ReviseEach` does, stated by the first record that fails: the
      records before it are revised, it and all later ones are unchanged, and
      the pass raises exactly when such a record exists, with its error. */
  lemma ReviseEachStopsAtFirstFailure(rates: Rates, a: Answer, key: int, os: seq<Outcome>)
    ensures forall j :: 0 <= j < FirstFailure(rates, a, key, os) ==>
              ReviseEach(rates, a, key, os).outcomes[j] == Revise(rates, a, key, os[j]).value
    ensures ReviseEach(rates, a, key, os).outcomes[FirstFailure(rates, a, key, os)..]
            == os[FirstFailure(rates, a, key, os)..]
    ensures ReviseEach(rates, a, key, os).error.None? <==> FirstFailure(rates, a, key, os) == |os|
    ensures ReviseEach(rates, a, key, os).error.Some? ==>
              ReviseEach(rates, a, key, os).error.value == Revise(rates, a, key, os[FirstFailure(rates, a, key, os)]).error
  {
    ReviseEachRevisesPrefix(rates, a, key, os);
    ReviseEachKeepsSuffix(rates, a, key, os);
    ReviseEachRaisesAtFailure(rates, a, key, os);
    var k := FirstFailure(rates, a, key, os);
    assert ReviseEach(rates, a, key, os).outcomes[k..] == os[k..];
  }

  /** `handle_answer(question_number, rate)` on the records `outcomes`: a
      rate outside 0..4 raises `RangeException` before any record is
      touched; otherwise the rule the rate names is applied to every record
      with its estimation for question `question_number + 1`. */
  function AfterAnswer(rates: Rates, outcomes: seq<Outcome>, questionNumber: int, rate: int): (r: Revision)
    ensures !(0 <= rate < 5) ==> r == Revision(outcomes, Some(RangeException))
    ensures |r.outcomes| == |outcomes|
  {
    match AnswerOfRate(rate)
    case None => Revision(outcomes, Some(RangeException))
    case Some(a) => ReviseEach(rates, a, questionNumber + 1, outcomes)
  }

  /** Overwriting position `i` of a sequence extends its prefix by the new
      element and leaves the suffix after `i` alone. */
  lemma UpdateSplits<T>(s: seq<T>, i: nat, x: T, tail: seq<T>)
    requires i < |s|
    ensures s[i := x][..i + 1] == s[..i] + [x]
    ensures s[i := x][i + 1..] == s[i + 1..]
    ensures s[..i] + ([x] + tail) == s[i := x][..i + 1] + tail
  {
    assert s[i := x][..i + 1] == s[..i] + [x];
  }

  /** One step of `ReviseEach` from position `i`. */
  lemma ReviseEachUnfold(rates: Rates, a: Answer, key: int, os: seq<Outcome>, i: nat)
    requires i < |os|
    ensures Revise(rates, a, key, os[i]).Failure? ==>
              ReviseEach(rates, a, key, os[i..]) == Revision(os[i..], Some(Revise(rates, a, key, os[i]).error))
    ensures Revise(rates, a, key, os[i]).Success? ==>
              ReviseEach(rates, a, key, os[i..]) ==
              Revision([Revise(rates, a, key, os[i]).value] + ReviseEach(rates, a, key, os[i + 1..]).outcomes,
                       ReviseEach(rates, a, key, os[i + 1..]).error)
  {
    assert os[i..][1..] == os[i + 1..];
  }

  /** The invariant of `Expert.HandleAnswer`'s loop: `full` is the outcome
      of the whole pass, of which the records before `i` are done. */
  predicate PassInvariant(rates: Rates, a: Answer, key: int, full: Revision, os: seq<Outcome>, i: nat)
    requires i <= |os|
  {
    var rest := ReviseEach(rates, a, key, os[i..]);
    full == Revision(os[..i] + rest.outcomes, rest.error)
  }

  /** A record that cannot be revised ends the pass with the records as
      they stand. */
  lemma PassStopsAt(rates: Rates, a: Answer, key: int, full: Revision, os: seq<Outcome>, i: nat)
    requires i < |os| && PassInvariant(rates, a, key, full, os, i)
    requires !Revisable(rates, a, key, os[i])
    ensures full == Revision(os, Some(Revise(rates, a, key, os[i]).error))
  {
    ReviseEachUnfold(rates, a, key, os, i);
    assert os[..i] + os[i..] == os;
  }

  /** Revising record `i` in place moves the loop on by one. */
  lemma PassContinues(rates: Rates, a: Answer, key: int, full: Revision, os: seq<Outcome>, i: nat, revised: Outcome)
    requires i < |os| && PassInvariant(rates, a, key, full, os, i)
    requires Revise(rates, a, key, os[i]) == Success(revised)
    ensures PassInvariant(rates, a, key, full, os[i := revised], i + 1)
  {
    ReviseEachUnfold(rates, a, key, os, i);
    UpdateSplits(os, i, revised, ReviseEach(rates, a, key, os[i + 1..]).outcomes);
  }

  // ---------------------------------------------------------------------
  // Properties of handle_answer

  /** When every record can be revised, the pass raises nothing and revises
      every record. */
  lemma ReviseEachSucceeds(rates: Rates, a: Answer, key: int, os: seq<Outcome>)
    requires forall o <- os :: Revisable(rates, a, key, o)
    ensures ReviseEach(rates, a, key, os).error.None?
    ensures forall j :: 0 <= j < |os| ==>
              ReviseEach(rates, a, key, os).outcomes[j] == Revise(rates, a, key, os[j]).value
  {
    ReviseEachStopsAtFirstFailure(rates, a, key, os);
    forall j | 0 <= j < |os|
      ensures Revisable(rates, a, key, os[j])
    {
      assert os[j] in os;
    }
  }

  /** A successful `handle_answer` replaces the belief of every record by
      the chosen rule applied to that record's belief and its estimation for
      question `question_number + 1`, changes no other field and keeps the
      list's length and order. */
  lemma HandleAnswerRevisesEveryRecord(rates: Rates, outcomes: seq<Outcome>, questionNumber: int, rate: int)
    requires AfterAnswer(rates, outcomes, questionNumber, rate).error.None?
    ensures 0 <= rate < 5
    ensures var r := AfterAnswer(rates, outcomes, questionNumber, rate);
            var a, key := AnswerOfRate(rate).value, questionNumber + 1;
            |r.outcomes| == |outcomes| &&
            forall j :: 0 <= j < |outcomes| ==>
              Revisable(rates, a, key, outcomes[j]) &&
              r.outcomes[j].(belief := outcomes[j].belief) == outcomes[j] &&
              r.outcomes[j].belief == Apply(rates, a, outcomes[j].belief,
                                            outcomes[j].estimations[key].inPresence,
                                            outcomes[j].estimations[key].inAbsence)
  {
    var a, key := AnswerOfRate(rate).value, questionNumber + 1;
    ReviseEachStopsAtFirstFailure(rates, a, key, outcomes);
    var k := FirstFailure(rates, a, key, outcomes);
    assert k == |outcomes|;
    forall j | 0 <= j < |outcomes|
      ensures Revisable(rates, a, key, outcomes[j])
    {
    }
  }

  /** A failing `handle_answer` stops at the first record that raises: the
      records before it are revised, it and those after it are unchanged. */
  lemma HandleAnswerStopsAtFirstFailure(rates: Rates, outcomes: seq<Outcome>, questionNumber: int, rate: int)
    requires 0 <= rate < 5
    requires AfterAnswer(rates, outcomes, questionNumber, rate).error.Some?
    ensures var r := AfterAnswer(rates, outcomes, questionNumber, rate);
            var a, key := AnswerOfRate(rate).value, questionNumber + 1;
            exists k :: 0 <= k < |outcomes| &&
              !Revisable(rates, a, key, outcomes[k]) &&
              r.error == Some(if key in outcomes[k].estimations then DivisionError else MissingEstimation) &&
              r.outcomes[k..] == outcomes[k..] &&
              forall j :: 0 <= j < k ==> Revisable(rates, a, key, outcomes[j]) &&
                                         r.outcomes[j] == Revise(rates, a, key, outcomes[j]).value
  {
    var a, key := AnswerOfRate(rate).value, questionNumber + 1;
    ReviseEachStopsAtFirstFailure(rates, a, key, outcomes);
    var k := FirstFailure(rates, a, key, outcomes);
    assert k < |outcomes|;
  }

  /** "Don't know" (rate 2) leaves every record as it was, provided every
      record has an estimation for the question; otherwise the lookup still
      raises `KeyError`. */
  lemma DoNotKnowKeepsRecords(rates: Rates, outcomes: seq<Outcome>, questionNumber: int)
    ensures (forall o <- outcomes :: questionNumber + 1 in o.estimations) ==>
              AfterAnswer(rates, outcomes, questionNumber, 2) == Revision(outcomes, None)
    ensures (exists o <- outcomes :: questionNumber + 1 !in o.estimations) ==>
              AfterAnswer(rates, outcomes, questionNumber, 2).error == Some(MissingEstimation)
  {
    var key := questionNumber + 1;
    var r := AfterAnswer(rates, outcomes, questionNumber, 2);
    ReviseEachStopsAtFirstFailure(rates, DoNotKnow, key, outcomes);
    var k := FirstFailure(rates, DoNotKnow, key, outcomes);
    if forall o <- outcomes :: key in o.estimations {
      ReviseEachSucceeds(rates, DoNotKnow, key, outcomes);
      assert r.outcomes == outcomes;
    } else {
      assert k < |outcomes|;
    }
  }

  /** The records of a category: every belief and every conditional
      probability for the questions `1..n` lies strictly between 0 and 1. */
  predicate Supported(os: seq<Outcome>, n: nat) {
    forall o <- os :: InUnit(o.belief) && forall key | 1 <= key <= n ::
      key in o.estimations && InUnit(o.estimations[key].inPresence) && InUnit(o.estimations[key].inAbsence)
  }

  /** With valid weights and records whose probabilities all lie strictly
      between 0 and 1, an answer to any of the `n` questions raises nothing
      and keeps the records so: no division by zero can ever occur. */
  lemma HandleAnswerKeepsSupport(rates: Rates, outcomes: seq<Outcome>, n: nat, questionNumber: int, rate: int)
    requires CheckRateRange(rates) && Supported(outcomes, n)
    requires 0 <= questionNumber < n && 0 <= rate < 5
    ensures AfterAnswer(rates, outcomes, questionNumber, rate).error.None?
    ensures Supported(AfterAnswer(rates, outcomes, questionNumber, rate).outcomes, n)
  {
    var a, key := AnswerOfRate(rate).value, questionNumber + 1;
    forall o | o in outcomes
      ensures Revisable(rates, a, key, o)
      ensures Revise(rates, a, key, o).value.estimations == o.estimations
      ensures InUnit(Revise(rates, a, key, o).value.belief)
    {
      ApplyStaysInUnit(rates, a, o.belief, o.estimations[key].inPresence, o.estimations[key].inAbsence);
      assert Revise(rates, a, key, o).value.(belief := o.belief) == o;
    }
    ReviseEachSucceeds(rates, a, key, outcomes);
    var r := AfterAnswer(rates, outcomes, questionNumber, rate);
    forall o' | o' in r.outcomes
      ensures InUnit(o'.belief) && o'.estimations in (set o <- outcomes :: o.estimations)
    {
      var j :| 0 <= j < |r.outcomes| && r.outcomes[j] == o';
      assert outcomes[j] in outcomes;
    }
  }

  /** A pass changes nothing of a record but its belief. */
  lemma {:induction false} ReviseEachKeepsEstimations(rates: Rates, a: Answer, key: int, os: seq<Outcome>)
    ensures forall j :: 0 <= j < |os| ==>
              ReviseEach(rates, a, key, os).outcomes[j] == os[j].(belief := ReviseEach(rates, a, key, os).outcomes[j].belief)
  {
    if os != [] && Revise(rates, a, key, os[0]).Success? {
      ReviseEachKeepsEstimations(rates, a, key, os[1..]);
      var r, rest := ReviseEach(rates, a, key, os), ReviseEach(rates, a, key, os[1..]);
      assert r.outcomes == [Revise(rates, a, key, os[0]).value] + rest.outcomes;
      forall j | 0 < j < |os|
        ensures r.outcomes[j] == os[j].(belief := r.outcomes[j].belief)
      {
        assert r.outcomes[j] == rest.outcomes[j - 1] && os[j] == os[1..][j - 1];
      }
    }
  }

  /** `handle_answer` never breaks the schema: it changes beliefs only. */
  lemma HandleAnswerKeepsValid(rates: Rates, outcomes: seq<Outcome>, questionNumber: int, rate: int)
    requires forall o <- outcomes :: ValidOutcome(o)
    ensures forall o <- AfterAnswer(rates, outcomes, questionNumber, rate).outcomes :: ValidOutcome(o)
  {
    var r := AfterAnswer(rates, outcomes, questionNumber, rate);
    if 0 <= rate < 5 {
      var a, key := AnswerOfRate(rate).value, questionNumber + 1;
      ReviseEachKeepsEstimations(rates, a, key, outcomes);
      forall o' | o' in r.outcomes
        ensures ValidOutcome(o')
      {
        var j :| 0 <= j < |r.outcomes| && r.outcomes[j] == o';
        assert outcomes[j] in outcomes;
      }
    }
  }

  /** An expert whose records are updated in place, as `Expert` objects
      are. */
  class Expert {
    const questions: seq<string>
    const rates: Rates
    var outcomes: seq<Outcome>

    function State(): ExpertState
      reads this
    {
      ExpertState(questions, rates, outcomes)
    }

    constructor FromValid(state: ExpertState)
      requires state.Valid()
      ensures State() == state
    {
      questions := state.questions;
      rates := state.rates;
      outcomes := state.outcomes;
    }

    /** `Expert()`: a fresh expert over the loaded data, or the exception
        the construction raises. */
    static method Create(questions: seq<string>, rates: Rates, data: OutcomesData)
      returns (r: Result<Expert, ExpertError>)
      ensures r.Success? <==> NewExpert(questions, rates, data).Success?
      ensures r.Failure? ==> NewExpert(questions, rates, data) == Failure(r.error)
      ensures r.Success? ==> fresh(r.value) && r.value.State() == NewExpert(questions, rates, data).value
    {
      if !CheckRateRange(rates) {
        return Failure(ProbabilityRatesException);
      }
      var err := ValidateOutcomeDicts(data);
      if err.Some? {
        return Failure(err.value);
      }
      var e := new Expert.FromValid(ExpertState(questions, rates, data.items));
      return Success(e);
    }

    /** `handle_answer`: overwrites each record's belief in turn; an
        exception leaves the records already visited revised. */
    method HandleAnswer(questionNumber: int, rate: int) returns (err: Option<ExpertError>)
      modifies this
      ensures Revision(outcomes, err) == AfterAnswer(rates, old(outcomes), questionNumber, rate)
      ensures old(State().Valid()) ==> State().Valid()
    {
      if forall o <- outcomes :: ValidOutcome(o) {
        HandleAnswerKeepsValid(rates, outcomes, questionNumber, rate);
      }
      var key := questionNumber + 1;
      if !InRange(rate, 0, 5) {
        return Some(RangeException);
      }
      var a := AnswerOfRate(rate).value;
      err := ReviseAll(a, key);
    }

    /** The loop of `handle_answer`: the rule for `a` on every record with
        its estimation under `key`, in order, stopping at the first record
        that raises. */
    method ReviseAll(a: Answer, key: int) returns (err: Option<ExpertError>)
      modifies this
      ensures Revision(outcomes, err) == ReviseEach(rates, a, key, old(outcomes))
    {
      ghost var full := ReviseEach(rates, a, key, outcomes);
      assert outcomes[0..] == outcomes;
      var i := 0;
      while i < |outcomes|
        invariant 0 <= i <= |outcomes|
        invariant PassInvariant(rates, a, key, full, outcomes, i)
      {
        var step := Revise(rates, a, key, outcomes[i]);
        if step.Failure? {
          PassStopsAt(rates, a, key, full, outcomes, i);
          return Some(step.error);
        }
        var revised := step.value;
        PassContinues(rates, a, key, full, outcomes, i, revised);
        outcomes := outcomes[i := revised];
        i := i + 1;
      }
      assert outcomes[..i] == outcomes;
      return None;
    }
  }
}
