/** The first sound-card console expert (sound_card_expert.py): the update
    formulas are written inline in the driver, with the weights -3 and 3 over
    a gradation of 5 as literals. */
module InlineSoundCard {
  import opened Wrappers
  import opened BeliefEngine
  import opened ExpertModel
  import opened ConsoleSession
  import SoundCardCatalog

  /** The formula the driver writes out for answer `a`, or `None` where it
      divides by zero. It is the expert's rule at the default weights. */
  function InlineFormula(a: Answer, p: real, pY: real, pN: real): (r: Option<real>)
    requires a != DoNotKnow
    ensures r.Some? <==> Defined(DefaultRates, a, p, pY, pN)
    ensures r.Some? ==> r.value == Apply(DefaultRates, a, p, pY, pN)
  {
    match a
    case Yes =>
      if pY * p + pN * (1.0 - p) == 0.0 then None
      else Some((pY * p) / (pY * p + pN * (1.0 - p)))
    case No =>
      if (1.0 - pY) * p + (1.0 - pN) * (1.0 - p) == 0.0 then None
      else Some(((1.0 - pY) * p) / ((1.0 - pY) * p + (1.0 - pN) * (1.0 - p)))
    case ProbablyNo =>
      var rate := -3.0;
      if (1.0 - pY) * p + (1.0 - pN) * (1.0 - p) == 0.0 then None
      else Some(p + (p - ((1.0 - pY) * p) / ((1.0 - pY) * p + (1.0 - pN) * (1.0 - p))) * rate / 5.0)
    case Probably =>
      var rate := 3.0;
      if pY * p + pN * (1.0 - p) == 0.0 then None
      else Some(p + ((pY * p) / (pY * p + pN * (1.0 - p)) - p) * rate / 5.0)
  }

  /** `SoundCard`: the catalog's questions and its records, updated in
      place. */
  class SoundCard {
    var outcomes: seq<Outcome>

    constructor ()
      ensures outcomes == SoundCardCatalog.Outcomes
    {
      outcomes := SoundCardCatalog.Outcomes;
    }

    /** One of the inner loops of `run`: the formula for `a` on every record
        with its estimation for question `key`, in order. A missing
        estimation or a zero denominator raises and stops the loop. */
    method UpdateAll(a: Answer, key: int) returns (err: Option<ExpertError>)
      requires a != DoNotKnow
      modifies this
      ensures Revision(outcomes, err) == ReviseEach(DefaultRates, a, key, old(outcomes))
    {
      ghost var full := ReviseEach(DefaultRates, a, key, outcomes);
      assert outcomes[0..] == outcomes;
      var i := 0;
      while i < |outcomes|
        invariant 0 <= i <= |outcomes|
        invariant PassInvariant(DefaultRates, a, key, full, outcomes, i)
      {
        var o := outcomes[i];
        if key !in o.estimations {
          PassStopsAt(DefaultRates, a, key, full, outcomes, i);
          return Some(MissingEstimation);
        }
        var p, pY, pN := o.belief, o.estimations[key].inPresence, o.estimations[key].inAbsence;
        var v := InlineFormula(a, p, pY, pN);
        if v.None? {
          PassStopsAt(DefaultRates, a, key, full, outcomes, i);
          return Some(DivisionError);
        }
        var revised := o.(belief := v.value);
        PassContinues(DefaultRates, a, key, full, outcomes, i, revised);
        outcomes := outcomes[i := revised];
        i := i + 1;
      }
      assert outcomes[..i] == outcomes && outcomes[i..] == [];
      return None;
    }

    /** `run` with the console replies given in advance: the records end as
        the console run over the catalog's questions leaves them, at the
        default weights. */
    method Run(replies: seq<string>) returns (end: RunEnd)
      modifies this
      ensures (outcomes, end) == ConsoleRun(DefaultRates, old(outcomes), replies, |SoundCardCatalog.Questions|)
    {
      var n := |SoundCardCatalog.Questions|;
      var q := 0;
      while q < n
        invariant 0 <= q <= n
        invariant ConsoleRun(DefaultRates, old(outcomes), replies, n) == ConsoleRunFrom(DefaultRates, outcomes, replies, n, q)
      {
        ConsoleRunStep(DefaultRates, outcomes, replies, n, q);
        if q >= |replies| {
          return InputExhausted;
        }
        var answer := replies[q];
        var a: Answer;
        if answer == "5" {
          a := Yes;
        } else if answer == "1" {
          a := No;
        } else if answer == "3" {
          q := q + 1;
          continue;
        } else if answer == "2" {
          a := ProbablyNo;
        } else if answer == "4" {
          a := Probably;
        } else {
          return Completed;
        }
        assert ParseReply(answer) == Rated(a);
        var err := UpdateAll(a, q + 1);
        if err.Some? {
          return Crashed(err.value);
        }
        q := q + 1;
      }
      ConsoleRunDone(DefaultRates, outcomes, replies, n, q);
      return Completed;
    }
  }
}
