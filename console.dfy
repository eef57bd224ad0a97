/** What the three console drivers share: each walks the questions in order,
    reads one reply per question, maps "1".."5" to an answer, skips on "3"
    and stops on anything else. The replies typed at the console are a
    sequence; reading past its end is the `EOFError` of `input()`. */
module ConsoleSession {
  import opened Wrappers
  import opened BeliefEngine
  import opened ExpertModel

  /** A console reply: an answer to apply, a skip, or the end of the quiz. */
  datatype Reply = Rated(answer: Answer) | Skip | Quit

  /** The reply table of the drivers: "1" no, "2" probably no, "3" don't
      know (skipped without an update), "4" probably, "5" yes; any other
      text stops the quiz. */
  function ParseReply(s: string): (r: Reply)
    ensures r == Skip <==> s == "3"
    ensures r.Rated? <==> s == "1" || s == "2" || s == "4" || s == "5"
    ensures r.Rated? ==> r.answer != DoNotKnow && RateOf(r.answer) + 1 == s[0] as int - '0' as int
  {
    if s == "1" then Rated(No)
    else if s == "2" then Rated(ProbablyNo)
    else if s == "3" then Skip
    else if s == "4" then Rated(Probably)
    else if s == "5" then Rated(Yes)
    else Quit
  }

  /** The updates a console run performs, as (0-based question index,
      answer) in order, and whether it ran out of input before the loop
      ended. */
  datatype Plan = Plan(steps: seq<(nat, Answer)>, inputExhausted: bool)

  /** The plan of a run over `n` questions from question `i` on; question
      `q` is answered by `replies[q]`. */
  function PlanFrom(replies: seq<string>, n: nat, i: nat): (p: Plan)
    decreases n - i
    ensures forall s <- p.steps :: i <= s.0 < n
    ensures p.inputExhausted ==> i < n && |replies| < n
  {
    if i >= n then Plan([], false)
    else if i >= |replies| then Plan([], true)
    else
      match ParseReply(replies[i])
      case Quit => Plan([], false)
      case Skip => PlanFrom(replies, n, i + 1)
      case Rated(a) =>
        var rest := PlanFrom(replies, n, i + 1);
        Plan([(i, a)] + rest.steps, rest.inputExhausted)
  }

  /** Where a run from question `i` stops asking: the end of the questions,
      the end of the input, or the first reply that stops the quiz. */
  function StopIndex(replies: seq<string>, n: nat, i: nat): (j: nat)
    decreases n - i
    ensures i <= j
    ensures i <= n ==> j <= n
    ensures i < j ==> j <= |replies|
    ensures forall q :: i <= q < j ==> ParseReply(replies[q]) != Quit
    ensures j < n ==> j >= |replies| || ParseReply(replies[j]) == Quit
  {
    if i >= n || i >= |replies| || ParseReply(replies[i]) == Quit then i
    else StopIndex(replies, n, i + 1)
  }

  /** Every step answers a question in `lo..hi-1` with the answer its own
      reply names. */
  predicate StepsFromReplies(replies: seq<string>, steps: seq<(nat, Answer)>, lo: nat, hi: nat) {
    forall k :: 0 <= k < |steps| ==>
      lo <= steps[k].0 < hi && steps[k].0 < |replies| && ParseReply(replies[steps[k].0]) == Rated(steps[k].1)
  }

  /** The steps go in strictly increasing question order. */
  predicate StrictlyIncreasing(steps: seq<(nat, Answer)>) {
    forall k, k' :: 0 <= k < k' < |steps| ==> steps[k].0 < steps[k'].0
  }

  /** Every step of the plan answers a question before the stop with the
      answer its own reply names, and the steps go in increasing question
      order. */
  lemma {:induction false} PlanStepsMatchReplies(replies: seq<string>, n: nat, i: nat)
    decreases n - i
    ensures StepsFromReplies(replies, PlanFrom(replies, n, i).steps, i, StopIndex(replies, n, i))
    ensures StrictlyIncreasing(PlanFrom(replies, n, i).steps)
  {
    if i < n && i < |replies| && ParseReply(replies[i]) != Quit {
      PlanStepsMatchReplies(replies, n, i + 1);
      var p, rest := PlanFrom(replies, n, i), PlanFrom(replies, n, i + 1);
      var j := StopIndex(replies, n, i);
      assert j == StopIndex(replies, n, i + 1);
      if ParseReply(replies[i]).Rated? {
        assert p.steps == [(i, ParseReply(replies[i]).answer)] + rest.steps;
        forall k | 0 <= k < |p.steps|
          ensures i <= p.steps[k].0 < j && p.steps[k].0 < |replies|
          ensures ParseReply(replies[p.steps[k].0]) == Rated(p.steps[k].1)
        {
          if k > 0 {
            assert p.steps[k] == rest.steps[k - 1];
          }
        }
        forall k, k' | 0 <= k < k' < |p.steps|
          ensures p.steps[k].0 < p.steps[k'].0
        {
          assert p.steps[k'] == rest.steps[k' - 1];
          if k > 0 {
            assert p.steps[k] == rest.steps[k - 1];
          }
        }
      } else {
        assert ParseReply(replies[i]) == Skip;
        assert p == rest;
      }
    }
  }

  /** Every rated reply before the stop has its step in the plan. */
  lemma {:induction false} PlanCoversRatedReplies(replies: seq<string>, n: nat, i: nat)
    decreases n - i
    ensures forall q :: i <= q < StopIndex(replies, n, i) && q < |replies| && ParseReply(replies[q]).Rated? ==>
              (q, ParseReply(replies[q]).answer) in PlanFrom(replies, n, i).steps
  {
    if i < n && i < |replies| && ParseReply(replies[i]) != Quit {
      PlanCoversRatedReplies(replies, n, i + 1);
      var p, rest := PlanFrom(replies, n, i), PlanFrom(replies, n, i + 1);
      assert StopIndex(replies, n, i) == StopIndex(replies, n, i + 1);
      if ParseReply(replies[i]).Rated? {
        assert p.steps == [(i, ParseReply(replies[i]).answer)] + rest.steps;
      } else {
        assert ParseReply(replies[i]) == Skip;
        assert p == rest;
      }
    }
  }

  /** A run reads past the input exactly when it stops at the end of the
      replies with questions still to ask. */
  lemma {:induction false} PlanExhaustedIff(replies: seq<string>, n: nat, i: nat)
    decreases n - i
    ensures PlanFrom(replies, n, i).inputExhausted <==>
              StopIndex(replies, n, i) < n && StopIndex(replies, n, i) >= |replies|
  {
    if i < n && i < |replies| && ParseReply(replies[i]) != Quit {
      PlanExhaustedIff(replies, n, i + 1);
    }
  }

  /** Once a reply stops the quiz, nothing typed after it matters. */
  lemma {:induction false} PlanIgnoresRepliesAfterQuit(replies: seq<string>, later: seq<string>, n: nat, i: nat, j: nat)
    requires i <= j < |replies| && j < n && ParseReply(replies[j]) == Quit
    decreases j - i
    ensures PlanFrom(replies, n, i) == PlanFrom(replies[..j + 1] + later, n, i)
  {
    var other := replies[..j + 1] + later;
    assert other[i] == replies[i];
    if i < j {
      PlanIgnoresRepliesAfterQuit(replies, later, n, i + 1, j);
    }
  }

  /** The plan applied to a list of records, one `handle_answer` per step
      with the step's question index and the answer's rate, stopping at the
      first exception. */
  function ApplyPlan(rates: Rates, outcomes: seq<Outcome>, steps: seq<(nat, Answer)>): (r: Revision)
    decreases |steps|
    ensures |r.outcomes| == |outcomes|
  {
    if steps == [] then Revision(outcomes, None)
    else
      var first := AfterAnswer(rates, outcomes, steps[0].0, RateOf(steps[0].1));
      if first.error.Some? then first
      else ApplyPlan(rates, first.outcomes, steps[1..])
  }

  /** Records whose probabilities all lie strictly between 0 and 1 for the
      `n` questions never raise under a plan that asks only those questions,
      and stay so; beliefs are the only thing that changes. */
  lemma {:induction false} ApplyPlanKeepsSupport(rates: Rates, outcomes: seq<Outcome>, n: nat, steps: seq<(nat, Answer)>)
    requires CheckRateRange(rates) && Supported(outcomes, n)
    requires forall k :: 0 <= k < |steps| ==> steps[k].0 < n
    decreases |steps|
    ensures ApplyPlan(rates, outcomes, steps).error.None?
    ensures Supported(ApplyPlan(rates, outcomes, steps).outcomes, n)
  {
    if steps != [] {
      HandleAnswerKeepsSupport(rates, outcomes, n, steps[0].0, RateOf(steps[0].1));
      var first := AfterAnswer(rates, outcomes, steps[0].0, RateOf(steps[0].1));
      ApplyPlanKeepsSupport(rates, first.outcomes, n, steps[1..]);
    }
  }

  /** How a console run ends: the loop finishes or stops on a reply, the
      expert raises, or `input()` hits the end of the input. */
  datatype RunEnd = Completed | Crashed(error: ExpertError) | InputExhausted

  /** The records after a console run over `n` questions, from question
      `i` on, and how it ends. The run applies its plan; an exception from
      the expert ends it at once; otherwise a run that read past the input
      ends with `EOFError`. */
  function ConsoleRunFrom(rates: Rates, outcomes: seq<Outcome>, replies: seq<string>, n: nat, i: nat): (r: (seq<Outcome>, RunEnd))
    ensures |r.0| == |outcomes|
    ensures r.1 == InputExhausted ==> |replies| < n
  {
    var plan := PlanFrom(replies, n, i);
    var r := ApplyPlan(rates, outcomes, plan.steps);
    (r.outcomes, if r.error.Some? then Crashed(r.error.value)
                 else if plan.inputExhausted then InputExhausted
                 else Completed)
  }

  /** A whole console run. */
  function ConsoleRun(rates: Rates, outcomes: seq<Outcome>, replies: seq<string>, n: nat): (r: (seq<Outcome>, RunEnd))
    ensures |r.0| == |outcomes|
    ensures r.1 == InputExhausted ==> |replies| < n
  {
    ConsoleRunFrom(rates, outcomes, replies, n, 0)
  }

  /** An answer's rate names that answer again. */
  lemma AnswerOfRateOf(a: Answer)
    ensures AnswerOfRate(RateOf(a)) == Some(a)
  {
  }

  /** One iteration of a driver's question loop at question `i`: the end of
      the input raises, a stopping reply ends the run, a skip moves on, and
      an answer revises every record with key `i + 1` before moving on. */
  lemma ConsoleRunStep(rates: Rates, outcomes: seq<Outcome>, replies: seq<string>, n: nat, i: nat)
    requires i < n
    ensures i >= |replies| ==> ConsoleRunFrom(rates, outcomes, replies, n, i) == (outcomes, InputExhausted)
    ensures i < |replies| && ParseReply(replies[i]) == Quit ==>
              ConsoleRunFrom(rates, outcomes, replies, n, i) == (outcomes, Completed)
    ensures i < |replies| && ParseReply(replies[i]) == Skip ==>
              ConsoleRunFrom(rates, outcomes, replies, n, i) == ConsoleRunFrom(rates, outcomes, replies, n, i + 1)
    ensures i < |replies| && ParseReply(replies[i]).Rated? ==>
              var r := ReviseEach(rates, ParseReply(replies[i]).answer, i + 1, outcomes);
              ConsoleRunFrom(rates, outcomes, replies, n, i) ==
                if r.error.Some? then (r.outcomes, Crashed(r.error.value))
                else ConsoleRunFrom(rates, r.outcomes, replies, n, i + 1)
  {
    if i < |replies| && ParseReply(replies[i]).Rated? {
      var a := ParseReply(replies[i]).answer;
      AnswerOfRateOf(a);
      var steps := PlanFrom(replies, n, i).steps;
      assert steps == [(i, a)] + PlanFrom(replies, n, i + 1).steps;
      assert steps[1..] == PlanFrom(replies, n, i + 1).steps;
    }
  }

  /** Past the last question the run is over. */
  lemma ConsoleRunDone(rates: Rates, outcomes: seq<Outcome>, replies: seq<string>, n: nat, i: nat)
    requires i >= n
    ensures ConsoleRunFrom(rates, outcomes, replies, n, i) == (outcomes, Completed)
  {
  }

  /** With valid weights and supported records, a console run never
      crashes in the expert, ends by running out of input only when the
      replies are too few, and keeps the records supported. */
  lemma ConsoleRunKeepsSupport(rates: Rates, outcomes: seq<Outcome>, replies: seq<string>, n: nat)
    requires CheckRateRange(rates) && Supported(outcomes, n)
    ensures !ConsoleRun(rates, outcomes, replies, n).1.Crashed?
    ensures |replies| >= n ==> ConsoleRun(rates, outcomes, replies, n).1 == Completed
    ensures Supported(ConsoleRun(rates, outcomes, replies, n).0, n)
  {
    PlanStepsMatchReplies(replies, n, 0);
    PlanExhaustedIff(replies, n, 0);
    var plan := PlanFrom(replies, n, 0);
    ApplyPlanKeepsSupport(rates, outcomes, n, plan.steps);
  }
}
