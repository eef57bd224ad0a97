/** The audio-interface console expert (experts/audio_interface_expert.py):
    an `Expert` of experts/base.py over loaded data, driven by console
    replies through `handle_answer`, then asked for its result. */
module AudioInterfaceConsole {
  import opened Wrappers
  import opened BeliefEngine
  import opened ExpertModel
  import opened ConsoleSession

  /** How `run_in_console` ends and the record it reports: a completed run
      reports the expert's result, which itself raises when there are no
      records. */
  function ConsoleOutcome(state: ExpertState, replies: seq<string>): (r: (seq<Outcome>, RunEnd, Option<Outcome>))
    ensures var (os, end) := ConsoleRun(state.rates, state.outcomes, replies, |state.questions|);
            r.0 == os &&
            (end != Completed ==> r.1 == end && r.2 == None) &&
            (end == Completed && |os| > 0 ==> r.1 == Completed && r.2 == Some(os[FirstMaxIndex(os)])) &&
            (end == Completed && |os| == 0 ==> r.1 == Crashed(EmptyOutcomes) && r.2 == None)
  {
    var (os, end) := ConsoleRun(state.rates, state.outcomes, replies, |state.questions|);
    if end != Completed then (os, end, None)
    else match state.(outcomes := os).GetResult()
      case Success(best) => (os, Completed, Some(best))
      case Failure(e) => (os, Crashed(e), None)
  }

  /** `run_in_console` with the console replies given in advance: reply
      "1", "2", "4" or "5" to question `q` (0-based) calls
      `handle_answer(q, 0)`, `(q, 1)`, `(q, 3)` or `(q, 4)`; "3" skips the
      question; anything else ends the questions. */
  method RunInConsole(expert: Expert, replies: seq<string>) returns (end: RunEnd, result: Option<Outcome>)
    modifies expert
    ensures (expert.outcomes, end, result) == ConsoleOutcome(old(expert.State()), replies)
  {
    var n := |expert.questions|;
    var q := 0;
    while q < n
      invariant 0 <= q <= n
      invariant ConsoleRun(expert.rates, old(expert.outcomes), replies, n)
                == ConsoleRunFrom(expert.rates, expert.outcomes, replies, n, q)
    {
      ConsoleRunStep(expert.rates, expert.outcomes, replies, n, q);
      if q >= |replies| {
        return InputExhausted, None;
      }
      var answer := replies[q];
      var err: Option<ExpertError> := None;
      if answer == "1" {
        err := expert.HandleAnswer(q, 0);
      } else if answer == "2" {
        err := expert.HandleAnswer(q, 1);
      } else if answer == "3" {
        q := q + 1;
        continue;
      } else if answer == "4" {
        err := expert.HandleAnswer(q, 3);
      } else if answer == "5" {
        err := expert.HandleAnswer(q, 4);
      } else {
        break;
      }
      if err.Some? {
        return Crashed(err.value), None;
      }
      q := q + 1;
    }
    if q >= n {
      ConsoleRunDone(expert.rates, expert.outcomes, replies, n, q);
    }
    var best := expert.State().GetResult();
    if best.Failure? {
      return Crashed(best.error), None;
    }
    return Completed, Some(best.value);
  }

  /** With valid weights and records supported for every question, the run
      never crashes, and once every question has a reply it reports a record
      of highest final belief. */
  lemma ConsoleReportsBest(state: ExpertState, replies: seq<string>)
    requires CheckRateRange(state.rates) && Supported(state.outcomes, |state.questions|)
    requires |state.outcomes| > 0 && |replies| >= |state.questions|
    ensures var r := ConsoleOutcome(state, replies);
            r.1 == Completed && r.2.Some? && r.2.value in r.0 &&
            forall o <- r.0 :: o.belief <= r.2.value.belief
  {
    ConsoleRunKeepsSupport(state.rates, state.outcomes, replies, |state.questions|);
  }
}
