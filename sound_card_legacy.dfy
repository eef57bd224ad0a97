/** The second sound-card console expert (experts/sound_card_expert.py):
    the driver looks up each record's probabilities and calls the calculators
    of base.py's `Expert`. */
module LegacySoundCard {
  import opened Wrappers
  import opened BeliefEngine
  import opened ExpertModel
  import opened LegacyExpert
  import opened ConsoleSession
  import SoundCardCatalog

  /** `SoundCard`, a subclass of base.py's `Expert` with the default
      weights: the catalog's questions and its records, updated in place. */
  class SoundCard {
    var outcomes: seq<Outcome>

    constructor ()
      ensures outcomes == SoundCardCatalog.Outcomes
    {
      outcomes := SoundCardCatalog.Outcomes;
    }

    /** One of the inner loops of `run`: `get_probabilities_from_outcome`
        and the calculator for `a` on every record, in order. A missing
        estimation or a zero denominator raises and stops the loop. */
    method UpdateAll(a: Answer, key: int) returns (err: Option<ExpertError>)
      requires a != DoNotKnow
      modifies this
      ensures Revision(outcomes, err) == ReviseEach(DefaultRates, a, key, old(outcomes))
    {
      ghost var full := ReviseEach(DefaultRates, a, key, outcomes);
      assert outcomes[0..] == outcomes;
      var i := 0;
      while i < |outcomes|
        invariant 0 <= i <= |outcomes|
        invariant PassInvariant(DefaultRates, a, key, full, outcomes, i)
      {
        var o := outcomes[i];
        var probs := GetProbabilities(o, key);
        if probs.Failure? {
          PassStopsAt(DefaultRates, a, key, full, outcomes, i);
          return Some(probs.error);
        }
        var (p, pY, pN) := probs.value;
        if !Defined(DefaultRates, a, p, pY, pN) {
          PassStopsAt(DefaultRates, a, key, full, outcomes, i);
          return Some(DivisionError);
        }
        var v := match a
          case Yes => CalculateAnswerYes(p, pY, pN)
          case No => CalculateAnswerNo(p, pY, pN)
          case ProbablyNo => CalculateAnswerProbablyNo(DefaultRates, p, pY, pN)
          case Probably => CalculateAnswerProbably(DefaultRates, p, pY, pN);
        var revised := o.(belief := v);
        PassContinues(DefaultRates, a, key, full, outcomes, i, revised);
        outcomes := outcomes[i := revised];
        i := i + 1;
      }
      assert outcomes[..i] == outcomes && outcomes[i..] == [];
      return None;
    }

    /** `run` with the console replies given in advance: the records end as
        the console run over the catalog's questions leaves them, at the
        default weights. */
    method Run(replies: seq<string>) returns (end: RunEnd)
      modifies this
      ensures (outcomes, end) == ConsoleRun(DefaultRates, old(outcomes), replies, |SoundCardCatalog.Questions|)
    {
      var n := |SoundCardCatalog.Questions|;
      var q := 0;
      while q < n
        invariant 0 <= q <= n
        invariant ConsoleRun(DefaultRates, old(outcomes), replies, n) == ConsoleRunFrom(DefaultRates, outcomes, replies, n, q)
      {
        ConsoleRunStep(DefaultRates, outcomes, replies, n, q);
        if q >= |replies| {
          return InputExhausted;
        }
        var answer := replies[q];
        var a: Answer;
        if answer == "5" {
          a := Yes;
        } else if answer == "1" {
          a := No;
        } else if answer == "3" {
          q := q + 1;
          continue;
        } else if answer == "2" {
          a := ProbablyNo;
        } else if answer == "4" {
          a := Probably;
        } else {
          return Completed;
        }
        assert ParseReply(answer) == Rated(a);
        var err := UpdateAll(a, q + 1);
        if err.Some? {
          return Crashed(err.value);
        }
        q := q + 1;
      }
      ConsoleRunDone(DefaultRates, outcomes, replies, n, q);
      return Completed;
    }
  }
}
