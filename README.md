# Music-studio expert system and Apriori miner, modelled in Dafny

The repository is a Telegram bot that helps a user choose sound-recording
equipment. Each equipment category has an *expert*: a list of yes/no
questions and one outcome record per candidate product. Each record holds a
belief (`priori_probability`) and, for each question, the conditional
probabilities of a "yes" when the product is or is not the right one.
Every answer rewrites every record's belief by Bayes' theorem. The five
answers are "no", "probably no", "don't know", "probably" and "yes"; the
partial answers move only part of the way, with fixed weights. After the
last question, the record with the highest belief is the result. Next to
the bot sit three console drivers of the same experts and an unrelated
Apriori frequent-itemset miner.

The project models:

- `engine.dfy` (`BeliefEngine`): the five update rules of
  `experts/base.py`, the check of the weights, and the rate-to-rule table.
  The properties are proved on exact reals:
  - a belief strictly between 0 and 1 stays so;
  - "yes" raises and "no" lowers the belief exactly when `p_y > p_n`;
  - "probably" and "probably no" land between the old belief and the full
    update.
- `expert.dfy` (`ExpertModel`): the expert of `experts/base.py`.
  - Construction, with the weight check and the record schema.
  - `handle_answer` as a specification function, with its error paths. A
    rate outside 0..4 raises before anything changes. Otherwise the pass
    stops at the first record with no estimation or with a zero
    denominator, and the records before it are already revised.
  - `get_result`: the first record of highest belief.
  - The class `Expert`, whose records are updated in place by a loop
    proved against the specification.
- `legacy_expert.dfy` (`LegacyExpert`): the older `base.py`. Its formulas
  are written out again and proved equal to the engine's. Its construction
  checks the weights but not the records.
- `console.dfy` (`ConsoleSession`): what the three console drivers share.
  They read one reply per question: "1".."5" pick an answer, "3" skips the
  question, any other reply stops, and the end of the input raises.
  The run is specified as a plan of (question, answer) steps folded over
  the records.
- `sound_card_catalog.dfy`, `sound_card_inline.dfy` and
  `sound_card_legacy.dfy` model the two sound-card drivers.
  - `sound_card_expert.py` writes the formulas inline, with the weights as
    literals.
  - `experts/sound_card_expert.py` calls the calculators of `base.py`.
  - Each is a class whose records are updated in place by loops, proved
    equal to the shared console run.
- `audio_interface.dfy` (`AudioInterfaceConsole`): `run_in_console` of
  `experts/audio_interface_expert.py`. It drives an `Expert` through
  `handle_answer` and then reports its result.
- `quiz_bot.dfy` (`QuizBot`): the message loop `main` of `run_bot.py`.
  - `Step` is the pure transition for one update, over the chat-language
    map, the session map and the offset. `RunUpdates` folds it.
  - The class `Bot` holds the two maps as fields. Its methods, down to the
    `Serve` loop, are proved equal to the specification.
  - The properties:
    - each update touches only its own chat;
    - each branch of `main` does what the code says, including the crashes
      that Python would raise: a category whose class is `None`, an expert
      without questions, a message without text during a quiz, and any
      exception from the expert.
- `apriori.dfy` (`AprioriMining`): the class `Apriori` of
  `apriori/apriori.py`, with `__create_c1`, `__filter_ck`, `__create_ck`
  and `run` as methods over the class's fields. The loop invariants of
  `run` are proved, and so is the main claim: a run that starts with no
  levels finds exactly the frequent itemsets, level `i` holding those of
  `i + 1` items. Like the code, a second `run` joins from index `k - 2` of
  the whole level list, so it rebuilds from the first run's levels. The
  model states what such a run appends without claiming it is complete.

`wrappers.dfy` holds the `Option` and `Result` types.

## Model

| member | source | states |
|---|---|---|
| BeliefEngine.RateOf | experts/base.py:148 | every answer category has a rate number in 0..4 |
| BeliefEngine.AnswerOfRate | experts/base.py:151-156 | exactly the rates 0..4 select a rule, and rate `r` selects the rule whose rate number is `r` |
| BeliefEngine.CheckRateRange | experts/base.py:48-57 | construction may go on iff `-gradation < probably_no_rate < 0` and `0 < probably_rate < gradation`; this forces `gradation >= 2` |
| BeliefEngine.DefaultRatesAccepted | experts/base.py:21-23 | the class weights 5, -3 and 3 pass the check |
| BeliefEngine.AnswerYes | experts/base.py:124-128 | Bayes' theorem: the posterior times the probability of a "yes" is `p_y·p` |
| BeliefEngine.AnswerNo | experts/base.py:92-102 | Bayes' theorem for a "no": the posterior times the probability of a "no" is `(1−p_y)·p` |
| BeliefEngine.AnswerDoNotKnow | experts/base.py:110-117 | "don't know" returns the belief unchanged |
| BeliefEngine.AnswerProbably | experts/base.py:119-122 | "probably" moves the belief by `probably_rate/gradation` of the distance to the "yes" posterior |
| BeliefEngine.AnswerProbablyNo | experts/base.py:104-108 | "probably no" moves the belief by `probably_no_rate/gradation` of the distance from the "no" posterior |
| BeliefEngine.Defined | experts/base.py:92-128 | the rule for an answer can be evaluated exactly when none of its divisions is by zero: the evidence in the answer's direction is nonzero, and for the weighted answers the gradation too; Do Not Know always can |
| BeliefEngine.Apply | experts/base.py:153-156 | the rule `calculation_methods` picks for an answer: Bayes' rule for Yes and No (the result times the evidence is the joint weight), no change for Do Not Know, and for Probably and Probably No a step whose length is the rate's share of the gradation of the step Yes or No would take |
| BeliefEngine.EvidencePositive | experts/base.py:92-128 | with belief and conditional probabilities in (0, 1), neither denominator is zero |
| BeliefEngine.YesStaysInUnit | experts/base.py:124-128 | the "yes" rule keeps a belief in (0, 1) |
| BeliefEngine.NoStaysInUnit | experts/base.py:92-102 | the "no" rule keeps a belief in (0, 1) |
| BeliefEngine.NoIsYesOfComplements | experts/base.py:92-128 | the "no" rule is the "yes" rule on the complementary likelihoods |
| BeliefEngine.YesShift | experts/base.py:124-128 | the "yes" rule moves the belief by `p·(1−p)·(p_y−p_n)` over the evidence |
| BeliefEngine.YesRaisesBeliefIff | experts/base.py:124-128 | "yes" raises the belief iff `p_y > p_n` and leaves it unchanged iff `p_y == p_n` |
| BeliefEngine.NoLowersBeliefIff | experts/base.py:92-102 | "no" lowers the belief iff `p_y > p_n` and leaves it unchanged iff `p_y == p_n` |
| BeliefEngine.ProbablyBetween | experts/base.py:119-122 | with valid weights, "probably" lands strictly between the old belief and the "yes" posterior, or on the old belief when those coincide |
| BeliefEngine.ProbablyNoBetween | experts/base.py:104-108 | with valid weights, "probably no" lands strictly between the old belief and the "no" posterior, or on the old belief when those coincide |
| BeliefEngine.ApplyStaysInUnit | experts/base.py:153-160 | with valid weights, every rule is defined and keeps a belief in (0, 1) |
| ExpertModel.ValidateOutcomeDicts | experts/base.py:60-90 | passes iff the outcomes are a list and every record has a non-blank producer and model and the estimations of question 1; a non-list raises `TypeError`, a bad record `OutcomesValidationException` |
| ExpertModel.ValidOutcome | experts/base.py:61-74 | the record schema beyond the field types: a non-blank producer and model, and the estimations of question 1; further questions and a blank description or image id are allowed |
| ExpertModel.NewExpert | experts/base.py:26-46 | construction succeeds iff the weights pass and the records pass the schema, with the weights checked first; success yields a valid expert over the loaded data |
| ExpertModel.GetProbabilities | experts/base.py:130-142 | returns the belief and the pair stored under the question number; a missing key raises `KeyError`. base.py:82-94 has the same lookup, and the `base.py` sound-card driver calls this member too |
| ExpertModel.Revise | experts/base.py:158-160 | one record: only its belief changes, to the chosen rule's value; a missing estimation or a zero denominator raises the matching error |
| ExpertModel.Revisable | experts/base.py:158-159 | a record can be revised for an answer on a question when it has that question's estimations and the answer's rule divides by no zero; otherwise the loop body raises |
| ExpertModel.ReviseEach | experts/base.py:158-160 | the loop of `handle_answer` over the records, in order and stopping at the first exception, keeps the number of records; the lemmas below state which records it revises |
| ExpertModel.FirstFailure | experts/base.py:158-160 | the index of the first record the pass cannot revise: all before it can be revised |
| ExpertModel.ReviseEachRevisesPrefix | experts/base.py:158-160 | the records before the first failing one are revised |
| ExpertModel.ReviseEachKeepsSuffix | experts/base.py:158-160 | the first failing record and all later ones are left alone |
| ExpertModel.ReviseEachRaisesAtFailure | experts/base.py:158-160 | the pass raises iff some record fails, with that record's error |
| ExpertModel.ReviseEachStopsAtFirstFailure | experts/base.py:158-160 | the whole behaviour of the loop: revised prefix, untouched suffix, error iff a record fails |
| ExpertModel.AfterAnswer | experts/base.py:144-162 | a rate outside 0..4 raises `RangeException` before any record changes; the record list keeps its length |
| ExpertModel.ReviseEachSucceeds | experts/base.py:158-160 | when every record can be revised, nothing is raised and every record is revised |
| ExpertModel.HandleAnswerRevisesEveryRecord | experts/base.py:144-162 | a successful `handle_answer` had a rate in 0..4 and replaced every belief, and nothing else, by the rule for question `question_number + 1` |
| ExpertModel.HandleAnswerStopsAtFirstFailure | experts/base.py:158-160 | a failing `handle_answer` raised at some record `k`, with `KeyError` or a division error; the records before `k` are revised and the rest are unchanged |
| ExpertModel.DoNotKnowKeepsRecords | experts/base.py:153-160 | rate 2 changes no record when every record has the estimation, and otherwise still raises `KeyError` |
| ExpertModel.HandleAnswerKeepsSupport | experts/base.py:144-162 | with valid weights and all probabilities in (0, 1), an answer to any question never raises and keeps them so |
| ExpertModel.ReviseEachKeepsEstimations | experts/base.py:158-160 | a pass changes nothing of a record but its belief: identity, names, description, image and estimations stay |
| ExpertModel.HandleAnswerKeepsValid | experts/base.py:144-162 | `handle_answer` keeps every record valid under the schema |
| ExpertModel.FirstMaxIndex | experts/base.py:165 | the index `max` stops at: a record of highest belief, with every earlier record strictly below it |
| ExpertModel.ExpertState.GetResult | experts/base.py:164-165 | no records raise `ValueError`; otherwise the result is a record whose belief no record exceeds, the first such one |
| ExpertModel.Expert.Create | experts/base.py:26-46 | a fresh expert over the data exactly when construction succeeds, otherwise the same exception |
| ExpertModel.Expert.FromValid | experts/base.py:26-46 | an expert object built over a state that passed the construction checks holds exactly that state |
| ExpertModel.Expert.HandleAnswer | experts/base.py:144-162 | the records and the exception after the call are those of `AfterAnswer` on the records before it; validity is kept |
| ExpertModel.Expert.ReviseAll | experts/base.py:158-162 | the in-place loop ends with the records and the exception of the pass over the old records |
| LegacyExpert.CalculateAnswerNo | base.py:32-42 | equals the "no" rule of `experts/base.py` |
| LegacyExpert.CalculateAnswerProbablyNo | base.py:44-48 | equals the "probably no" rule, a step of `probably_no_rate/gradation` from the "no" posterior |
| LegacyExpert.CalculateAnswerDoNotKnow | base.py:50-57 | equals the "don't know" rule for every pair of conditional probabilities |
| LegacyExpert.CalculateAnswerProbably | base.py:59-62 | equals the "probably" rule, a step of `probably_rate/gradation` toward the "yes" posterior |
| LegacyExpert.CalculateAnswerYes | base.py:75-79 | equals the "yes" rule |
| LegacyExpert.LegacyCheckRateRange | base.py:64-73 | the same condition as the weight check of `experts/base.py` |
| LegacyExpert.Construct | base.py:18-30 | construction succeeds iff the weights pass, keeping the records as given; otherwise `ProbabilityRatesException` |
| LegacyExpert.LegacySkipsValidation | base.py:18-30 | `base.py` accepts records that `experts/base.py` rejects: only the latter refuses a blank producer or model or missing estimations of question 1 |
| LegacyExpert.LegacyRulesStayInUnit | base.py:32-79 | with valid weights, every legacy calculator is defined and keeps a belief in (0, 1) |
| ConsoleSession.ParseReply | sound_card_expert.py:79-110 | "3" skips; "1", "2", "4" and "5" name the answer whose rate is the digit minus one; anything else stops |
| ConsoleSession.PlanFrom | experts/audio_interface_expert.py:8-21 | the updates a console run performs from a question on: every one asks a question from there up to the last, and the input runs out only when there are fewer replies than questions |
| ConsoleSession.StopIndex | experts/audio_interface_expert.py:8-21 | where the questions stop: no stopping reply before it; at it, the end of the questions, the end of the input or a stopping reply |
| ConsoleSession.PlanStepsMatchReplies | experts/audio_interface_expert.py:8-21 | every update a run performs answers a question before the stop with the answer its reply names, in increasing question order |
| ConsoleSession.PlanCoversRatedReplies | experts/audio_interface_expert.py:8-21 | every rated reply before the stop leads to an update |
| ConsoleSession.PlanExhaustedIff | experts/audio_interface_expert.py:8-21 | a run reads past the input iff it stops at the end of the replies with questions left |
| ConsoleSession.PlanIgnoresRepliesAfterQuit | experts/audio_interface_expert.py:20-21 | replies after a stopping reply change nothing |
| ConsoleSession.ApplyPlan | experts/audio_interface_expert.py:8-21 | the updates applied one `handle_answer` each, stopping at the first exception, keep the number of records |
| ConsoleSession.ApplyPlanKeepsSupport | experts/audio_interface_expert.py:8-21 | with valid weights and supported records, the updates of a run never raise and keep the records supported |
| ConsoleSession.AnswerOfRateOf | experts/base.py:151-156 | the rate of an answer selects that answer again |
| ConsoleSession.ConsoleRunFrom | experts/audio_interface_expert.py:8-21 | a console run from a question on keeps the number of records, and ends with an end-of-input error only when there are fewer replies than questions |
| ConsoleSession.ConsoleRun | sound_card_expert.py:76-110 | a whole console run keeps the number of records, and ends with an end-of-input error only when there are fewer replies than questions |
| ConsoleSession.ConsoleRunStep | experts/audio_interface_expert.py:8-21 | one pass of the question loop: end of input raises, a stop ends, "3" skips, an answer revises every record with key `q + 1` |
| ConsoleSession.ConsoleRunDone | experts/audio_interface_expert.py:8 | past the last question the run completes with the records as they are |
| ConsoleSession.ConsoleRunKeepsSupport | experts/audio_interface_expert.py:8-21 | with valid weights and supported records, a run never crashes, completes when there are enough replies, and keeps the records supported |
| AudioInterfaceConsole.ConsoleOutcome | experts/audio_interface_expert.py:7-27 | a completed run reports the first record of highest final belief, or raises `ValueError` when there are no records; other ends report nothing |
| AudioInterfaceConsole.RunInConsole | experts/audio_interface_expert.py:7-27 | the expert's records after the loop, the way it ends and the reported record are those of `ConsoleOutcome` |
| AudioInterfaceConsole.ConsoleReportsBest | experts/audio_interface_expert.py:7-27 | with valid weights, supported records and a reply per question, the run completes and reports a record of highest belief |
| SoundCardCatalog.CatalogSupported | sound_card_expert.py:5-61 | both cards have estimations for all three questions and all probabilities lie in (0, 1); read with `card_producer`, `card_model` and `image_path` as producer, model and image id, the records also satisfy `ValidOutcome` |
| SoundCardCatalog.CatalogRunKeepsSupport | sound_card_expert.py:63-110 | a run of either sound-card driver over its catalog never raises in an update, completes given three replies, and keeps every belief in (0, 1); both drivers' `Run` equal this console run |
| InlineSoundCard.InlineFormula | sound_card_expert.py:79-108 | the inline formulas fail exactly where the expert's rules divide by zero, and otherwise equal those rules at weights -3, 3 over 5 |
| InlineSoundCard.SoundCard.constructor | sound_card_expert.py:5-61 | the records start as the catalog |
| InlineSoundCard.SoundCard.UpdateAll | sound_card_expert.py:79-108 | the in-place loop for one answer ends with the records and the exception of the expert's pass |
| InlineSoundCard.SoundCard.Run | sound_card_expert.py:63-110 | the records and the end of the run are those of the console run over the catalog's three questions |
| LegacySoundCard.SoundCard.constructor | experts/sound_card_expert.py:4-61 | the records start as the catalog |
| LegacySoundCard.SoundCard.UpdateAll | experts/sound_card_expert.py:67-84 | the loop of `get_probabilities_from_outcome` (as `GetProbabilities`) and the `base.py` calculators ends with the records and the exception of the expert's pass |
| LegacySoundCard.SoundCard.Run | experts/sound_card_expert.py:63-86 | the records and the end of the run are those of the console run over the catalog's three questions |
| QuizBot.TablesConsistent | run_bot.py:5-43 | every language id indexes both tables; each language has five distinct answer labels; no label is at once an answer, a language, a category or a command |
| QuizBot.InitialStateWf | run_bot.py:62-64 | the empty maps satisfy the loop's invariant |
| QuizBot.LanguageOf | run_bot.py:75 | the chat's stored language, or the default one; it always indexes the tables |
| QuizBot.InQuiz | run_bot.py:76-77 | a chat is in a quiz when it has a session |
| QuizBot.Falsy | run_bot.py:79 | an update without text or with the empty text |
| QuizBot.IsCommand | run_bot.py:135 | a text that starts with a slash |
| QuizBot.IndexOf | run_bot.py:89-103 | the first position whose label equals the text |
| QuizBot.AnswerEffect | run_bot.py:89-103 | position 2 calls nothing; any other position calls `handle_answer` with the step and that rate |
| QuizBot.ResultMessages | run_bot.py:109-118 | the result card comes last, preceded by a photo iff the record has a non-empty image id |
| QuizBot.AnswerStep | run_bot.py:84-126 | keeps the loop's invariant unless it crashes, and sends only to the chat in its language |
| QuizBot.InQuizStep | run_bot.py:83-143 | keeps the loop's invariant unless it crashes, and sends only to the chat in its language |
| QuizBot.IdleStep | run_bot.py:145-177 | keeps the loop's invariant unless it crashes, and sends only to the chat in its language or in a language it has just chosen |
| QuizBot.Step | run_bot.py:68-179 | one update keeps the loop's invariant unless it crashes |
| QuizBot.AnswerStepIsLocal | run_bot.py:84-126 | an answer touches only its chat's entries and sends only to it |
| QuizBot.InQuizStepIsLocal | run_bot.py:83-143 | the quiz branch touches only its chat's entries and sends only to it |
| QuizBot.IdleStepIsLocal | run_bot.py:145-177 | the idle branch touches only its chat's entries and sends only to it |
| QuizBot.StepIsLocal | run_bot.py:68-179 | an update with a falsy id is skipped; any other touches and addresses only its chat, and moves the offset past itself unless it crashes |
| QuizBot.DefaultLanguageUsed | run_bot.py:75 | a chat without a stored language is answered in the default language, except for the confirmation of a language it has just chosen |
| QuizBot.NoTextMessage | run_bot.py:79-135 | a message without text gets the notice; during a quiz it then crashes on `startswith` and changes nothing, and outside one nothing more happens |
| QuizBot.QuizAnswer | run_bot.py:84-126 | an answer label revises the expert by `handle_answer`, except for "don't know"; then it sends the next question, or after the last one removes the session and reports the best record |
| QuizBot.QuizOtherTexts | run_bot.py:128-143 | during a quiz, `/stop` ends the session; other commands are refused and the current question resent; other texts change nothing |
| QuizBot.IdleTexts | run_bot.py:145-165 | outside a quiz, the four commands change no state; a language label sets that chat's language and confirms in it; unknown texts change nothing |
| QuizBot.IdleRouted | run_bot.py:83-179 | a non-empty text from a chat outside a quiz is handled by the idle branch, and the offset moves unless that crashes |
| QuizBot.CategorySelected | run_bot.py:167-177 | a category without a class crashes; otherwise a fresh expert is built and, when it has questions, stored at step 0 with the first question sent |
| QuizBot.RunUpdates | run_bot.py:68-179 | the updates handled in order until one crashes keep the loop's invariant |
| QuizBot.RunLeavesSilentChats | run_bot.py:62-179 | a chat that sent none of the updates keeps its language and its session |
| QuizBot.Bot.constructor | run_bot.py:62-64 | the bot starts with empty maps and no offset |
| QuizBot.Bot.RateAnswer | run_bot.py:89-103 | the comparison chain performs `AnswerEffect` for the position |
| QuizBot.Bot.AnswerLabel | run_bot.py:84-126 | the maps and messages after an answer label are those of `AnswerStep` |
| QuizBot.Bot.HandleInQuiz | run_bot.py:83-143 | the maps and messages of the quiz branch are those of `InQuizStep` |
| QuizBot.Bot.HandleIdle | run_bot.py:145-177 | the maps and messages of the idle branch are those of `IdleStep` |
| QuizBot.Bot.HandleUpdate | run_bot.py:68-179 | the state and messages after one update are those of `Step` |
| QuizBot.Bot.Serve | run_bot.py:66-179 | the state, messages and crash after the loop are those of `RunUpdates` on the initial state |
| AprioriMining.StrLessIrreflexive | apriori/apriori.py:47 | no name sorts before itself |
| AprioriMining.StrLessTransitive | apriori/apriori.py:47 | the string order used by `sort` is transitive |
| AprioriMining.StrLessTotal | apriori/apriori.py:47 | any two different names are ordered one way or the other |
| AprioriMining.Items | apriori/apriori.py:43-46 | every transaction lies within the items |
| AprioriMining.ItemsOccur | apriori/apriori.py:43-46 | an item is listed iff some transaction holds it |
| AprioriMining.Count | apriori/apriori.py:62-68 | a candidate is counted at most once per transaction |
| AprioriMining.Support | apriori/apriori.py:70-71 | the support of a candidate is a share: between 0 and 1, and times the number of transactions it gives the candidate's count |
| AprioriMining.CountedWithinItems | apriori/apriori.py:62-68 | a counted candidate is contained in some transaction and lies within the items |
| AprioriMining.SupportInUnit | apriori/apriori.py:70-74 | every recorded support lies in (0, 1] |
| AprioriMining.Counted | apriori/apriori.py:62-74 | the candidates given a support are among the candidates, and their items occur in the transactions |
| AprioriMining.Frequent | apriori/apriori.py:70-74 | the candidates kept are among those counted, and with a threshold of 0 or less every counted candidate is kept |
| AprioriMining.CountAntiMonotone | apriori/apriori.py:62-68 | a superset is contained in no more transactions than its subset |
| AprioriMining.FrequentSubsets | apriori/apriori.py:70-74 | every subset of a frequent set is frequent |
| AprioriMining.JoinRow | apriori/apriori.py:84-87 | the unions the inner loop adds for a set `a`; which sets they are is stated by `JoinRowMembers` |
| AprioriMining.JoinedFrom | apriori/apriori.py:83-87 | the unions both loops add; which sets they are is stated by `JoinedMembers` |
| AprioriMining.Candidates | apriori/apriori.py:77-88 | the set `__create_ck` returns for a level; its members are characterised by `CandidateShape` |
| AprioriMining.JoinRowMembers | apriori/apriori.py:84-87 | one row of the join holds exactly the `k`-item unions of its set with the other sets |
| AprioriMining.JoinedMembers | apriori/apriori.py:77-88 | the join holds exactly the `k`-item unions of two different sets |
| AprioriMining.CandidateShape | apriori/apriori.py:77-88 | every candidate has `k` items and contains a set of the level, which is in at least as many transactions |
| AprioriMining.CandidatesWithin | apriori/apriori.py:77-88 | candidates lie within the items, so none has more items than there are |
| AprioriMining.FilteredFrequent | apriori/apriori.py:50-75 | a filtered level holds exactly the frequent candidates |
| AprioriMining.StartLevels | apriori/apriori.py:94-98 | the first pass appends the frequent single items and records their supports |
| AprioriMining.ExtendLevels | apriori/apriori.py:100-105 | a further pass appends the frequent candidates joined from the level `k - 2` |
| AprioriMining.ExtendWithin | apriori/apriori.py:103-105 | the new level lies within the items |
| AprioriMining.ExtendSupports | apriori/apriori.py:104 | the dictionary update adds the supports of the new candidates |
| AprioriMining.ExtendResults | apriori/apriori.py:106 | the new item lists are appended after those before |
| AprioriMining.Grow | apriori/apriori.py:100-109 | a pass that finds candidates keeps the level loop's invariant with `k + 1` |
| AprioriMining.MinedAreFrequent | apriori/apriori.py:90-110 | every set a run appends is frequent, with one item more than the level before, and its support is in (0, 1] |
| AprioriMining.LevelJoined | apriori/apriori.py:100-105 | in a run from no levels, level `i` is the frequent part of the join of level `i - 1` |
| AprioriMining.FrequentFound | apriori/apriori.py:90-110 | in a run from no levels, every frequent itemset is found at the level of its size |
| AprioriMining.LevelComplete | apriori/apriori.py:90-110 | a frequent itemset of `i + 1` items is in level `i` |
| AprioriMining.LevelExactly | apriori/apriori.py:90-110 | level `i` holds exactly the frequent itemsets of `i + 1` items |
| AprioriMining.MinedExactly | apriori/apriori.py:90-110 | a run from no levels finds exactly the frequent itemsets, level by level, and no frequent itemset is larger than the number of levels |
| AprioriMining.Apriori.constructor | apriori/apriori.py:9-15 | the transactions and minimum support as given, their count, and empty levels, results and supports |
| AprioriMining.Apriori.CollectItems | apriori/apriori.py:43-46 | every item of every transaction, each once |
| AprioriMining.Apriori.CreateC1 | apriori/apriori.py:38-48 | the singleton of every item, once each, in ascending order of the items |
| AprioriMining.Apriori.FilterCk | apriori/apriori.py:50-75 | supports exactly for the counted candidates, each its share of the transactions; the level holds exactly those reaching the minimum support, each once |
| AprioriMining.Apriori.CountCandidates | apriori/apriori.py:59-68 | every candidate some transaction contains, with the number of transactions containing it |
| AprioriMining.Apriori.CreateCk | apriori/apriori.py:77-88 | exactly the `k`-item unions of two different sets of the level |
| AprioriMining.Apriori.NextLevel | apriori/apriori.py:100-109 | a pass either appends a level and keeps the loop's invariant, or finds no candidates and the run has stopped |
| AprioriMining.Apriori.Run | apriori/apriori.py:90-110 | the levels follow the join-and-filter rule until they stop; the supports and item lists are those of the new levels, and a run from no levels finds exactly the frequent itemsets |
| AprioriMining.CountIn | apriori/apriori.py:63-68 | one transaction adds one to each candidate it contains and creates the missing keys |
| AprioriMining.SingletonsDistinct | apriori/apriori.py:45-48 | singletons of ascending items differ |
| AprioriMining.SetToSeq | apriori/apriori.py:63 | iterating over a set visits each element once |
| AprioriMining.ToLists | apriori/apriori.py:106 | each item list names exactly the items of its set, each once |
| AprioriMining.AppendNew | apriori/apriori.py:44-46 | adds each item of a transaction not listed yet, keeping the list free of repeats |
| AprioriMining.InsertSorted | apriori/apriori.py:47 | inserting an item keeps the list strictly ascending and adds exactly that item |
| AprioriMining.SortItems | apriori/apriori.py:47 | `sort` yields the same distinct items in strictly ascending order |

## Left out

- Decimal and float arithmetic is modelled as exact real arithmetic.
  `Decimal`'s 28-digit rounding and `float`'s binary rounding are not
  modelled, and neither are the `Decimal(float)` conversions.
- Logging, the `randrange` process id of `experts/base.py` and `print`
  output are left out: the console drivers' final printing,
  `print_results` of `apriori/apriori.py` and the banner at the end of
  that file.
- The loading of data files (`load_data`, `data/__init__.py`) is not part
  of this model. The bot takes a `catalog` parameter that gives, for each
  category, the questions, weights and outcomes its expert class loads. The
  Soundproofing expert's data is therefore not modelled.
- The field types and the key set that the `trafaret` schema checks are
  fixed by the `Outcome` record type, so a record of another shape cannot
  be written down. The schema's other demands are modelled by
  `ValidOutcome`: a non-blank producer and model, and the estimations of
  question 1.
- The outcome lists in the class attributes are shared between the
  instances of an expert class. The model gives each expert its own value.
- `ExpertBotHandler` (`bot/expert_bot.py`) and `telegram_bot.py` are not
  part of this model. Sending, keyboards, photo upload and message text
  formatting become abstract `Action`s.
- The long-polling of `get_updates` with the offset (run_bot.py:66-68) and
  the endless outer loop are replaced by a finite sequence of updates. The
  offset is recorded but not used to fetch.
- Whether a chat is in a quiz: the truthiness test on `current_step` is reduced to the
  presence of a session. Every stored step is an integer, so the two agree.
- A session holds its expert by value. The program holds
  a fresh object per selection, which no other session shares, so the two
  agree.
- The product descriptions of the sound-card catalog are abbreviated. The
  producer and model names and the probabilities are as in the source.
- The sound-card records use the keys `card_producer`, `card_model` and
  `image_path` (an empty string), and the first record has an extra
  `current_rate`. The model reads them into the `Outcome` fields producer,
  model and image id `Some("")`, and drops `current_rate`. The schema of
  `experts/base.py` would refuse these dictionaries for their key names
  and the extra key. No code path checks them: the two drivers do not
  validate, and `outcomes_validator` of `base.py` does nothing.
- The `EOFError` of `input()` at the end of the console input is modelled
  as the run end `InputExhausted`.
- `outcomes_validator` of `base.py` does nothing and is not modelled.
- `__parse_transactions` of `apriori/apriori.py` reads a file. Its
  transactions, the file's lines split into sets, are the constructor's
  parameter, and `num_baskets` is not modelled.
- `frequentItemsSupport` starts as an empty list in the source and as an
  empty map in the model. `run` replaces it with a dictionary before it is
  ever updated, so the two agree.
- Iteration order is left open. Python iterates a set in an order that
  depends on hashing, so the order of `ck` and of the `list(x)` item
  lists is not determined by the program. Python iterates a dictionary in
  insertion order, so `counts`, and with it each level's list, follows the
  order of the transactions and of the candidates. The model does not
  track that order either: its loops visit `ck` and `counts` in an
  unspecified order. The contents of every list are fixed.
- The frozenset/list distinction is not modelled: candidates are sets of
  item names throughout.
