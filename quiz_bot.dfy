/** The message loop of the Telegram bot (`main` in run_bot.py). Per chat it
    keeps a preferred language and, during a quiz, a session: the category's
    expert and the index of the current question. One update either answers
    the current question, stops the quiz, is refused as a command during the
    quiz, or, outside a quiz, shows a text, sets the language or starts a quiz
    in a category. Sending is abstracted into `Action`s; an uncaught Python
    exception ends the loop and is a `Crash`. */
module QuizBot {
  import opened Wrappers
  import opened BeliefEngine
  import opened ExpertModel

  // ---------------------------------------------------------------------
  // Tables

  /** The equipment categories that have an expert class. */
  datatype Category = AudioInterface | Soundproofing

  /** What an expert class of a category loads when it is created: its
      questions, its weights and its records. */
  datatype CategoryData = CategoryData(questions: seq<string>, rates: Rates, outcomes: OutcomesData)

  const DefaultLanguageId: nat := 0

  /** `LANGUAGES`: the language labels and their ids. */
  const Languages: map<string, nat> := map["🇺🇦UA" := 0, "🇺🇸US" := 1]

  /** `LIST_OF_ANSWERS`: per language, the answer labels in rate order. */
  const ListOfAnswers: seq<seq<string>> := [
    ["Ні", "Швидше за все - ні", "Не знаю", "Швидше за все - так", "Так"],
    ["No", "Probably no", "Don't know", "Probably", "Yes"]
  ]

  /** `EQUIPMENTS`: per language, the category labels and their expert
      class; `None` where no class exists yet. */
  const Equipments: seq<map<string, Option<Category>>> := [
    map["Аудіо інтерфейс" := Some(AudioInterface), "Шумоізоляція" := Some(Soundproofing),
        "Мікрофон" := None, "Студійні монітори" := None, "Мікшерський пульт" := None],
    map["Audio interface" := Some(AudioInterface), "Soundproofing" := Some(Soundproofing),
        "Microphone" := None, "Studio monitor" := None, "Mixing console" := None]
  ]

  /** The tables agree: every language id indexes both per-language
      tables, each language has five distinct answer labels, and no label
      is at once an answer, a language and a category. */
  lemma TablesConsistent()
    ensures forall l <- Languages.Values :: l < |ListOfAnswers| && l < |Equipments|
    ensures DefaultLanguageId < |ListOfAnswers| == |Equipments| == 2
    ensures forall l :: 0 <= l < 2 ==> |ListOfAnswers[l]| == 5
    ensures forall l, i, j :: 0 <= l < 2 && 0 <= i < j < 5 ==> ListOfAnswers[l][i] != ListOfAnswers[l][j]
    ensures forall l, t :: 0 <= l < 2 && t in ListOfAnswers[l] ==> t !in Languages && t !in Equipments[l]
    ensures forall l, t :: 0 <= l < 2 && t in Equipments[l] ==> t !in Languages
    ensures forall l, t :: 0 <= l < 2 && t in Equipments[l] ==> t != "" && !IsCommand(t)
  {
    assert Languages.Values == {0, 1} by {
      assert Languages["🇺🇦UA"] == 0 && Languages["🇺🇸US"] == 1;
    }
  }

  // ---------------------------------------------------------------------
  // State

  /** `parse_update_message`: the update id, the text if the message has
      one, and the chat id. */
  datatype Update = Update(updateId: int, text: Option<string>, chatId: int)

  /** An entry of `current_step_for_user`: the chat's expert and the index
      of the question it is on. */
  datatype Session = Session(expert: ExpertState, currentStep: nat)

  /** `chat_language_for_user`, `current_step_for_user` and `new_offset`. */
  datatype BotState = BotState(chatLanguage: map<int, nat>, sessions: map<int, Session>, offset: Option<int>)

  const InitialState := BotState(map[], map[], None)

  /** What the bot sends. */
  datatype Message =
    | NoText                                       // `NO_TEXT_MESSAGE`
    | Question(number: nat, total: nat, text: string)
    | Photo(fileId: string, producer: string, model: string)
    | ResultCard(result: Outcome)                  // `RESULT_MESSAGE`
    | Done                                         // `DONE_MESSAGE`
    | NotAvailable                                 // `NOT_AVAILABLE_TEXT`
    | StartText
    | MenuText
    | HelpText
    | SettingsText

  /** A message to a chat, in a language. */
  datatype Action = Send(chatId: int, language: nat, message: Message)

  /** The uncaught exceptions that end `main`. */
  datatype Crash =
    | ExpertFailure(error: ExpertError)  // raised by the expert
    | NoneNotCallable                    // a category whose class is `None`
    | QuestionIndexError                 // an expert without questions
    | NoneHasNoStartswith                // a text-less message during a quiz

  datatype StepResult = StepResult(state: BotState, actions: seq<Action>, crash: Option<Crash>)

  /** What the loop keeps true: stored language ids index the tables and
      every session is on one of its expert's questions. */
  predicate Wf(s: BotState) {
    (forall c | c in s.chatLanguage :: s.chatLanguage[c] < 2) &&
    (forall c | c in s.sessions :: s.sessions[c].currentStep < |s.sessions[c].expert.questions|)
  }

  lemma InitialStateWf()
    ensures Wf(InitialState)
  {
  }

  /** The chat's language: its stored choice, or the default. */
  function LanguageOf(s: BotState, chat: int): (lang: nat)
    requires Wf(s)
    ensures lang < 2
    ensures chat !in s.chatLanguage ==> lang == DefaultLanguageId
  {
    if chat in s.chatLanguage then s.chatLanguage[chat] else DefaultLanguageId
  }

  /** `is_current_user_in_quiz`: the chat has a session whose step is truthy
      or equal to 0; every stored step is an integer, so this is the
      presence of a session. */
  predicate InQuiz(s: BotState, chat: int) {
    chat in s.sessions
  }

  /** `not last_chat_text`: no text, or the empty text. */
  predicate Falsy(text: Option<string>) {
    text.None? || text.value == ""
  }

  /** `text.startswith('/')`. */
  predicate IsCommand(t: string) {
    |t| > 0 && t[0] == '/'
  }

  /** The position of the first label equal to `t`, as the chain of
      comparisons in `main` finds it. */
  function IndexOf(labels: seq<string>, t: string): (i: nat)
    requires t in labels
    ensures i < |labels| && labels[i] == t
    ensures forall j :: 0 <= j < i ==> labels[j] != t
  {
    if labels[0] == t then 0 else 1 + IndexOf(labels[1..], t)
  }

  /** The answer at `position` of the label list on the session's question:
      position 2, "don't know", calls nothing; any other position calls
      `handle_answer(step, position)`. */
  function AnswerEffect(e: ExpertState, step: nat, position: nat): (r: Revision)
    ensures position == 2 ==> r == Revision(e.outcomes, None)
    ensures position != 2 ==> r == AfterAnswer(e.rates, e.outcomes, step, position)
  {
    if position == 2 then Revision(e.outcomes, None) else AfterAnswer(e.rates, e.outcomes, step, position)
  }

  /** The messages that report a result: a photo when the record has a
      non-empty image id, then the result card. */
  function ResultMessages(chat: int, lang: nat, best: Outcome): (acts: seq<Action>)
    ensures |acts| >= 1 && acts[|acts| - 1] == Send(chat, lang, ResultCard(best))
    ensures |acts| == 2 <==> best.imageId.Some? && best.imageId.value != ""
  {
    (if best.imageId.Some? && best.imageId.value != "" then
       [Send(chat, lang, Photo(best.imageId.value, best.producer, best.model))]
     else []) +
    [Send(chat, lang, ResultCard(best))]
  }

  // ---------------------------------------------------------------------
  // One update

  /** An answer label at `position` during a quiz: the expert call, then
      the result after the last question or the next question otherwise. */
  function AnswerStep(s: BotState, chat: int, lang: nat, position: nat): (r: StepResult)
    requires Wf(s) && chat in s.sessions
    ensures r.crash.None? ==> Wf(r.state)
    ensures forall a <- r.actions :: a.chatId == chat && a.language == lang
  {
    var session := s.sessions[chat];
    var e := session.expert;
    var n := |e.questions|;
    var handled := AnswerEffect(e, session.currentStep, position);
    var e' := e.(outcomes := handled.outcomes);
    var next := session.currentStep + 1;
    if handled.error.Some? then
      StepResult(s.(sessions := s.sessions[chat := Session(e', session.currentStep)]), [],
                 Some(ExpertFailure(handled.error.value)))
    else if next >= n then
      match e'.GetResult()
      case Failure(err) =>
        StepResult(s.(sessions := s.sessions[chat := Session(e', session.currentStep)]), [], Some(ExpertFailure(err)))
      case Success(best) =>
        StepResult(s.(sessions := s.sessions - {chat}), ResultMessages(chat, lang, best), None)
    else
      StepResult(s.(sessions := s.sessions[chat := Session(e', next)]),
                 [Send(chat, lang, Question(next, n, e.questions[next]))], None)
  }

  /** The quiz branch of `main` for a chat with a session. */
  function InQuizStep(s: BotState, chat: int, lang: nat, text: Option<string>): (r: StepResult)
    requires Wf(s) && chat in s.sessions && lang < 2
    ensures r.crash.None? ==> Wf(r.state)
    ensures forall a <- r.actions :: a.chatId == chat && a.language == lang
  {
    var session := s.sessions[chat];
    var e := session.expert;
    var n := |e.questions|;
    if text.Some? && text.value in ListOfAnswers[lang] then
      AnswerStep(s, chat, lang, IndexOf(ListOfAnswers[lang], text.value))
    else if text == Some("/stop") then
      StepResult(s.(sessions := s.sessions - {chat}), [Send(chat, lang, Done)], None)
    else if text.None? then
      StepResult(s, [], Some(NoneHasNoStartswith))
    else if IsCommand(text.value) then
      StepResult(s, [Send(chat, lang, NotAvailable),
                     Send(chat, lang, Question(session.currentStep, n, e.questions[session.currentStep]))], None)
    else
      StepResult(s, [], None)
  }

  /** The branch of `main` for a chat without a session. */
  function IdleStep(catalog: Category -> CategoryData, s: BotState, chat: int, lang: nat, text: Option<string>): (r: StepResult)
    requires Wf(s) && lang < 2
    ensures r.crash.None? ==> Wf(r.state)
    ensures forall a <- r.actions :: a.chatId == chat &&
              (a.language == lang || (text.Some? && text.value in Languages && a.language == Languages[text.value]))
  {
    if text == Some("/start") then StepResult(s, [Send(chat, lang, StartText)], None)
    else if text == Some("/menu") then StepResult(s, [Send(chat, lang, MenuText)], None)
    else if text == Some("/help") then StepResult(s, [Send(chat, lang, HelpText)], None)
    else if text == Some("/settings") then StepResult(s, [Send(chat, lang, SettingsText)], None)
    else if text.Some? && text.value in Languages then
      var chosen := Languages[text.value];
      StepResult(s.(chatLanguage := s.chatLanguage[chat := chosen]), [Send(chat, chosen, Done)], None)
    else if text.Some? && text.value in Equipments[lang] then
      match Equipments[lang][text.value]
      case None => StepResult(s, [], Some(NoneNotCallable))
      case Some(c) =>
        var d := catalog(c);
        match NewExpert(d.questions, d.rates, d.outcomes)
        case Failure(err) => StepResult(s, [], Some(ExpertFailure(err)))
        case Success(e) =>
          var s' := s.(sessions := s.sessions[chat := Session(e, 0)]);
          if |e.questions| == 0 then StepResult(s', [], Some(QuestionIndexError))
          else StepResult(s', [Send(chat, lang, Question(0, |e.questions|, e.questions[0]))], None)
    else
      StepResult(s, [], None)
  }

  /** One pass of the `for update` loop of `main`, `catalog` giving what
      each category's expert class loads. An update with a falsy id is
      skipped outright; otherwise a text-less message is answered with a
      notice, the chat is routed by whether it is in a quiz, and the offset
      moves past the update. */
  function Step(catalog: Category -> CategoryData, s: BotState, u: Update): (r: StepResult)
    requires Wf(s)
    ensures r.crash.None? ==> Wf(r.state)
  {
    if u.updateId == 0 then StepResult(s, [], None)
    else
      var chat := u.chatId;
      var lang := LanguageOf(s, chat);
      var notice := if Falsy(u.text) then [Send(chat, lang, NoText)] else [];
      var routed := if InQuiz(s, chat) then InQuizStep(s, chat, lang, u.text)
                    else IdleStep(catalog, s, chat, lang, u.text);
      if routed.crash.Some? then StepResult(routed.state, notice + routed.actions, routed.crash)
      else StepResult(routed.state.(offset := Some(u.updateId + 1)), notice + routed.actions, None)
  }

  // ---------------------------------------------------------------------
  // Properties of one update

  /** The two maps are equal outside `chat`. */
  ghost predicate SameElsewhere(s: BotState, t: BotState, chat: int) {
    (forall c :: c != chat ==> (c in s.chatLanguage <==> c in t.chatLanguage)) &&
    (forall c :: c != chat && c in s.chatLanguage ==> s.chatLanguage[c] == t.chatLanguage[c]) &&
    (forall c :: c != chat ==> (c in s.sessions <==> c in t.sessions)) &&
    (forall c :: c != chat && c in s.sessions ==> s.sessions[c] == t.sessions[c])
  }

  /** `r` touches only `chat`'s entries of `s` and sends only to `chat`. */
  ghost predicate LocalTo(s: BotState, r: StepResult, chat: int) {
    SameElsewhere(s, r.state, chat) && forall a <- r.actions :: a.chatId == chat
  }

  lemma AnswerStepIsLocal(s: BotState, chat: int, lang: nat, position: nat)
    requires Wf(s) && chat in s.sessions
    ensures LocalTo(s, AnswerStep(s, chat, lang, position), chat)
  {
  }

  lemma InQuizStepIsLocal(s: BotState, chat: int, lang: nat, text: Option<string>)
    requires Wf(s) && chat in s.sessions && lang < 2
    ensures LocalTo(s, InQuizStep(s, chat, lang, text), chat)
  {
    if text.Some? && text.value in ListOfAnswers[lang] {
      AnswerStepIsLocal(s, chat, lang, IndexOf(ListOfAnswers[lang], text.value));
    }
  }

  lemma IdleStepIsLocal(catalog: Category -> CategoryData, s: BotState, chat: int, lang: nat, text: Option<string>)
    requires Wf(s) && lang < 2
    ensures LocalTo(s, IdleStep(catalog, s, chat, lang, text), chat)
  {
  }

  /** An update with a falsy id changes nothing and sends nothing. Any other
      update touches only its own chat's entries, sends only to that chat,
      and, unless it crashes, sets the offset to its id plus one. */
  lemma StepIsLocal(catalog: Category -> CategoryData, s: BotState, u: Update)
    requires Wf(s)
    ensures u.updateId == 0 ==> Step(catalog, s, u) == StepResult(s, [], None)
    ensures SameElsewhere(s, Step(catalog, s, u).state, u.chatId)
    ensures forall a <- Step(catalog, s, u).actions :: a.chatId == u.chatId
    ensures u.updateId != 0 && Step(catalog, s, u).crash.None? ==>
              Step(catalog, s, u).state.offset == Some(u.updateId + 1)
  {
    if u.updateId != 0 {
      var lang := LanguageOf(s, u.chatId);
      if InQuiz(s, u.chatId) {
        InQuizStepIsLocal(s, u.chatId, lang, u.text);
      } else {
        IdleStepIsLocal(catalog, s, u.chatId, lang, u.text);
      }
    }
  }

  /** A chat without a stored language is spoken to in the default one,
      except for the confirmation of a language it has just chosen. */
  lemma DefaultLanguageUsed(catalog: Category -> CategoryData, s: BotState, u: Update)
    requires Wf(s) && u.chatId !in s.chatLanguage
    ensures forall a <- Step(catalog, s, u).actions :: a.language == DefaultLanguageId ||
              (u.text.Some? && u.text.value in Languages && a.language == Languages[u.text.value])
  {
  }

  /** The text-less message: a notice in every case, then a crash during a
      quiz (`None` has no `startswith`) and nothing more outside one. */
  lemma NoTextMessage(catalog: Category -> CategoryData, s: BotState, u: Update)
    requires Wf(s) && u.updateId != 0 && u.text.None?
    ensures var r := Step(catalog, s, u);
            |r.actions| >= 1 && r.actions[0] == Send(u.chatId, LanguageOf(s, u.chatId), NoText) &&
            (InQuiz(s, u.chatId) ==> r.crash == Some(NoneHasNoStartswith) && r.state == s) &&
            (!InQuiz(s, u.chatId) ==>
               (r.crash.None? && |r.actions| == 1 && r.state == s.(offset := Some(u.updateId + 1))))
  {
  }

  /** An answer label during a quiz. Position 2 leaves the records as they
      are; any other position applies `handle_answer` with that rate. The
      step advances; after the last question the session is removed and the
      record of highest belief is reported, otherwise the next question is
      sent. */
  lemma QuizAnswer(catalog: Category -> CategoryData, s: BotState, u: Update, position: nat)
    requires Wf(s) && u.updateId != 0 && InQuiz(s, u.chatId)
    requires var lang := LanguageOf(s, u.chatId);
             position < 5 && u.text == Some(ListOfAnswers[lang][position])
    ensures var chat, lang := u.chatId, LanguageOf(s, u.chatId);
            var session := s.sessions[chat];
            var e := session.expert;
            var handled := if position == 2 then Revision(e.outcomes, None)
                           else AfterAnswer(e.rates, e.outcomes, session.currentStep, position);
            var e' := e.(outcomes := handled.outcomes);
            var r := Step(catalog, s, u);
            (handled.error.Some? ==> r.crash == Some(ExpertFailure(handled.error.value))) &&
            (handled.error.None? && session.currentStep + 1 < |e.questions| ==>
               r.crash.None? &&
               r.state.sessions == s.sessions[chat := Session(e', session.currentStep + 1)] &&
               r.state.chatLanguage == s.chatLanguage &&
               r.actions == [Send(chat, lang, Question(session.currentStep + 1, |e.questions|,
                                                       e.questions[session.currentStep + 1]))]) &&
            (handled.error.None? && session.currentStep + 1 >= |e.questions| && |e.outcomes| > 0 ==>
               r.crash.None? &&
               r.state.sessions == s.sessions - {chat} &&
               r.state.chatLanguage == s.chatLanguage &&
               r.actions == ResultMessages(chat, lang, e'.GetResult().value))
  {
    var lang := LanguageOf(s, u.chatId);
    TablesConsistent();
    assert IndexOf(ListOfAnswers[lang], u.text.value) == position;
  }

  /** `/stop` during a quiz removes the session; any other command leaves
      both maps as they are and sends the refusal and the current question
      again; any other text that is not an answer label changes nothing. */
  lemma QuizOtherTexts(catalog: Category -> CategoryData, s: BotState, u: Update)
    requires Wf(s) && u.updateId != 0 && InQuiz(s, u.chatId)
    requires u.text.Some? && u.text.value !in ListOfAnswers[LanguageOf(s, u.chatId)]
    ensures var chat, lang := u.chatId, LanguageOf(s, u.chatId);
            var session := s.sessions[chat];
            var r := Step(catalog, s, u);
            var notice := if u.text.value == "" then [Send(chat, lang, NoText)] else [];
            r.crash.None? &&
            r.state.chatLanguage == s.chatLanguage && r.state.offset == Some(u.updateId + 1) &&
            (u.text.value == "/stop" ==>
               r.state.sessions == s.sessions - {chat} && r.actions == [Send(chat, lang, Done)]) &&
            (u.text.value != "/stop" && IsCommand(u.text.value) ==>
               r.state.sessions == s.sessions &&
               r.actions == [Send(chat, lang, NotAvailable),
                             Send(chat, lang, Question(session.currentStep, |session.expert.questions|,
                                                       session.expert.questions[session.currentStep]))]) &&
            (!IsCommand(u.text.value) ==> r.state.sessions == s.sessions && r.actions == notice)
  {
  }

  /** Outside a quiz: `/start`, `/menu`, `/help` and `/settings` change no
      state; a language label sets that chat's language and nothing else; a
      text that is no command, language or category changes nothing. */
  lemma IdleTexts(catalog: Category -> CategoryData, s: BotState, u: Update)
    requires Wf(s) && u.updateId != 0 && !InQuiz(s, u.chatId) && u.text.Some?
    ensures var chat, t := u.chatId, u.text.value;
            var r := Step(catalog, s, u);
            var moved := s.(offset := Some(u.updateId + 1));
            (t in {"/start", "/menu", "/help", "/settings"} ==> r.crash.None? && r.state == moved) &&
            (t in Languages ==>
               r.crash.None? && r.state == moved.(chatLanguage := s.chatLanguage[chat := Languages[t]]) &&
               r.actions == [Send(chat, Languages[t], Done)]) &&
            (t !in {"/start", "/menu", "/help", "/settings"} && t !in Languages &&
             t !in Equipments[LanguageOf(s, chat)] ==>
               r.crash.None? && r.state == moved)
  {
  }

  /** A message with a non-empty text from a chat outside a quiz is routed
      to `IdleStep` and, unless that crashes, moves the offset. */
  lemma IdleRouted(catalog: Category -> CategoryData, s: BotState, u: Update)
    requires Wf(s) && u.updateId != 0 && !InQuiz(s, u.chatId) && u.text.Some? && u.text.value != ""
    ensures var r := IdleStep(catalog, s, u.chatId, LanguageOf(s, u.chatId), u.text);
            Step(catalog, s, u) == if r.crash.Some? then r
                                   else StepResult(r.state.(offset := Some(u.updateId + 1)), r.actions, None)
  {
  }

  /** A category label outside a quiz: a category without a class crashes;
      otherwise the category's expert is built afresh and, if that succeeds
      and it has questions, a session at step 0 is stored and the first
      question sent. */
  lemma CategorySelected(catalog: Category -> CategoryData, s: BotState, u: Update)
    requires Wf(s) && u.updateId != 0 && !InQuiz(s, u.chatId)
    requires u.text.Some? && u.text.value in Equipments[LanguageOf(s, u.chatId)]
    ensures var chat, lang := u.chatId, LanguageOf(s, u.chatId);
            var r := Step(catalog, s, u);
            match Equipments[lang][u.text.value]
            case None => r.crash == Some(NoneNotCallable) && r.state == s
            case Some(c) =>
              var d := catalog(c);
              var built := NewExpert(d.questions, d.rates, d.outcomes);
              (built.Failure? ==> r.crash == Some(ExpertFailure(built.error))) &&
              (built.Success? && |d.questions| > 0 ==>
                 r.crash.None? && r.state.chatLanguage == s.chatLanguage &&
                 r.state.sessions == s.sessions[chat := Session(built.value, 0)] &&
                 r.actions == [Send(chat, lang, Question(0, |d.questions|, d.questions[0]))])
  {
    var chat, lang, t := u.chatId, LanguageOf(s, u.chatId), u.text.value;
    TablesConsistent();
    assert t !in Languages && t != "" && !IsCommand(t);
    IdleRouted(catalog, s, u);
    var r := IdleStep(catalog, s, chat, lang, u.text);
    match Equipments[lang][t]
    case None =>
      assert r == StepResult(s, [], Some(NoneNotCallable));
    case Some(c) =>
      var d := catalog(c);
      var built := NewExpert(d.questions, d.rates, d.outcomes);
      if built.Failure? {
        assert r == StepResult(s, [], Some(ExpertFailure(built.error)));
      } else if |d.questions| > 0 {
        assert r == StepResult(s.(sessions := s.sessions[chat := Session(built.value, 0)]),
                               [Send(chat, lang, Question(0, |d.questions|, d.questions[0]))], None);
      }
  }

  // ---------------------------------------------------------------------
  // A sequence of updates

  /** The updates handled in order until one crashes. */
  function RunUpdates(catalog: Category -> CategoryData, s: BotState, updates: seq<Update>): (r: StepResult)
    requires Wf(s)
    decreases |updates|
    ensures r.crash.None? ==> Wf(r.state)
  {
    if updates == [] then StepResult(s, [], None)
    else
      var first := Step(catalog, s, updates[0]);
      if first.crash.Some? then first
      else
        var rest := RunUpdates(catalog, first.state, updates[1..]);
        StepResult(rest.state, first.actions + rest.actions, rest.crash)
  }

  /** After the first `i` updates from state `s0`, state `s` and the
      actions `done` so far: handling the remaining updates from `s` gives
      what handling all of them from `s0`, `whole`, gives. */
  ghost predicate ServedUpTo(catalog: Category -> CategoryData, whole: StepResult, updates: seq<Update>,
                             i: int, s: BotState, done: seq<Action>) {
    0 <= i <= |updates| && Wf(s) &&
    var rest := RunUpdates(catalog, s, updates[i..]);
    whole == StepResult(rest.state, done + rest.actions, rest.crash)
  }

  /** Handling update `i` from `s`, with result `(t, sent, stop)`, either
      crashes and ends the run or leaves the remaining updates to handle. */
  lemma ServeNext(catalog: Category -> CategoryData, whole: StepResult, updates: seq<Update>, i: int,
                  s: BotState, done: seq<Action>, t: BotState, sent: seq<Action>, stop: Option<Crash>)
    requires ServedUpTo(catalog, whole, updates, i, s, done) && i < |updates|
    requires StepResult(t, sent, stop) == Step(catalog, s, updates[i])
    ensures stop.Some? ==> whole == StepResult(t, done + sent, stop)
    ensures stop.None? ==> ServedUpTo(catalog, whole, updates, i + 1, t, done + sent)
  {
    assert updates[i..][0] == updates[i] && updates[i..][1..] == updates[i + 1..];
    if stop.None? {
      var rest := RunUpdates(catalog, t, updates[i + 1..]);
      assert done + (sent + rest.actions) == (done + sent) + rest.actions;
    }
  }

  /** Once every update is handled, the run's result is the state and the
      actions reached. */
  lemma ServeEnd(catalog: Category -> CategoryData, whole: StepResult, updates: seq<Update>,
                 s: BotState, done: seq<Action>)
    requires ServedUpTo(catalog, whole, updates, |updates|, s, done)
    ensures whole == StepResult(s, done, None)
  {
    assert updates[|updates|..] == [] && done + [] == done;
  }

  /** Chats never interfere: whatever the updates of other chats, the entries
      of a chat that sent none of them stay as they were. */
  lemma {:induction false} RunLeavesSilentChats(catalog: Category -> CategoryData, s: BotState, updates: seq<Update>, chat: int)
    requires Wf(s)
    requires forall u <- updates :: u.chatId != chat
    decreases |updates|
    ensures var t := RunUpdates(catalog, s, updates).state;
            (chat in t.chatLanguage <==> chat in s.chatLanguage) &&
            (chat in s.chatLanguage ==> t.chatLanguage[chat] == s.chatLanguage[chat]) &&
            (chat in t.sessions <==> chat in s.sessions) &&
            (chat in s.sessions ==> t.sessions[chat] == s.sessions[chat])
  {
    if updates != [] {
      StepIsLocal(catalog, s, updates[0]);
      var first := Step(catalog, s, updates[0]);
      if first.crash.None? {
        assert forall u <- updates[1..] :: u in updates;
        RunLeavesSilentChats(catalog, first.state, updates[1..], chat);
      }
    }
  }

  // ---------------------------------------------------------------------
  // The loop of `main`, on mutable maps

  class Bot {
    var chatLanguage: map<int, nat>
    var sessions: map<int, Session>
    var offset: Option<int>

    function State(): BotState
      reads this
    {
      BotState(chatLanguage, sessions, offset)
    }

    constructor ()
      ensures State() == InitialState
    {
      chatLanguage := map[];
      sessions := map[];
      offset := None;
    }

    /** The chain of comparisons with the answer labels: the label at
        `position` calls `handle_answer` with that rate, except for
        "don't know", which calls nothing. */
    static method RateAnswer(expert: ExpertState, step: nat, position: nat) returns (handled: Revision)
      requires position < 5
      ensures handled == AnswerEffect(expert, step, position)
    {
      handled := Revision(expert.outcomes, None);
      if position == 0 {
        handled := AfterAnswer(expert.rates, expert.outcomes, step, 0);
      } else if position == 1 {
        handled := AfterAnswer(expert.rates, expert.outcomes, step, 1);
      } else if position == 2 {
      } else if position == 3 {
        handled := AfterAnswer(expert.rates, expert.outcomes, step, 3);
      } else if position == 4 {
        handled := AfterAnswer(expert.rates, expert.outcomes, step, 4);
      }
    }

    /** The answer label at `position`: `handle_answer` with that rate,
        except for "don't know", then the next question or the result. */
    method AnswerLabel(chat: int, lang: nat, position: nat) returns (actions: seq<Action>, crash: Option<Crash>)
      requires Wf(State()) && chat in sessions && position < 5
      modifies this
      ensures StepResult(State(), actions, crash) == AnswerStep(old(State()), chat, lang, position)
    {
      actions, crash := [], None;
      var questionNumber := sessions[chat].currentStep;
      var expert := sessions[chat].expert;
      var numberOfQuestions := |expert.questions|;
      var handled := RateAnswer(expert, questionNumber, position);
      // The session's expert is the object `handle_answer` updated in place.
      expert := expert.(outcomes := handled.outcomes);
      if handled.error.Some? {
        sessions := sessions[chat := Session(expert, questionNumber)];
        return [], Some(ExpertFailure(handled.error.value));
      }
      questionNumber := questionNumber + 1;
      if questionNumber >= numberOfQuestions {
        var result := expert.GetResult();
        if result.Failure? {
          sessions := sessions[chat := Session(expert, questionNumber - 1)];
          return [], Some(ExpertFailure(result.error));
        }
        var fileId := result.value.imageId;
        if fileId.Some? && fileId.value != "" {
          actions := actions + [Send(chat, lang, Photo(fileId.value, result.value.producer, result.value.model))];
        }
        actions := actions + [Send(chat, lang, ResultCard(result.value))];
        assert actions == ResultMessages(chat, lang, result.value);
        sessions := sessions - {chat};
      } else {
        sessions := sessions[chat := Session(expert, questionNumber)];
        actions := actions + [Send(chat, lang, Question(questionNumber, numberOfQuestions,
                                                        expert.questions[questionNumber]))];
      }
    }

    /** The quiz branch: the answer labels, `/stop`, other commands. */
    method HandleInQuiz(chat: int, lang: nat, text: Option<string>) returns (actions: seq<Action>, crash: Option<Crash>)
      requires Wf(State()) && chat in sessions && lang < 2
      modifies this
      ensures StepResult(State(), actions, crash) == InQuizStep(old(State()), chat, lang, text)
    {
      actions, crash := [], None;
      if text.Some? && text.value in ListOfAnswers[lang] {
        TablesConsistent();
        actions, crash := AnswerLabel(chat, lang, IndexOf(ListOfAnswers[lang], text.value));
      } else if text == Some("/stop") {
        sessions := sessions - {chat};
        actions := actions + [Send(chat, lang, Done)];
      } else if text.None? {
        return [], Some(NoneHasNoStartswith);
      } else if IsCommand(text.value) {
        actions := actions + [Send(chat, lang, NotAvailable)];
        var expert := sessions[chat].expert;
        var questionNumber := sessions[chat].currentStep;
        actions := actions + [Send(chat, lang, Question(questionNumber, |expert.questions|,
                                                        expert.questions[questionNumber]))];
      }
    }

    /** The branch for a chat without a session. */
    method HandleIdle(catalog: Category -> CategoryData, chat: int, lang: nat, text: Option<string>)
      returns (actions: seq<Action>, crash: Option<Crash>)
      requires Wf(State()) && lang < 2
      modifies this
      ensures StepResult(State(), actions, crash) == IdleStep(catalog, old(State()), chat, lang, text)
    {
      actions, crash := [], None;
      if text == Some("/start") {
        actions := [Send(chat, lang, StartText)];
      } else if text == Some("/menu") {
        actions := [Send(chat, lang, MenuText)];
      } else if text == Some("/help") {
        actions := [Send(chat, lang, HelpText)];
      } else if text == Some("/settings") {
        actions := [Send(chat, lang, SettingsText)];
      } else if text.Some? && text.value in Languages {
        chatLanguage := chatLanguage[chat := Languages[text.value]];
        actions := [Send(chat, chatLanguage[chat], Done)];
      } else if text.Some? && text.value in Equipments[lang] {
        var chosenClass := Equipments[lang][text.value];
        if chosenClass.None? {
          return [], Some(NoneNotCallable);
        }
        var d := catalog(chosenClass.value);
        var built := NewExpert(d.questions, d.rates, d.outcomes);
        if built.Failure? {
          return [], Some(ExpertFailure(built.error));
        }
        var expert := built.value;
        sessions := sessions[chat := Session(expert, 0)];
        if |expert.questions| == 0 {
          return [], Some(QuestionIndexError);
        }
        actions := [Send(chat, lang, Question(0, |expert.questions|, expert.questions[0]))];
      }
    }

    /** One pass of the `for update` loop. */
    method HandleUpdate(catalog: Category -> CategoryData, u: Update) returns (actions: seq<Action>, crash: Option<Crash>)
      requires Wf(State())
      modifies this
      ensures StepResult(State(), actions, crash) == Step(catalog, old(State()), u)
    {
      if u.updateId == 0 {
        return [], None;
      }
      var chat := u.chatId;
      var lang := if chat in chatLanguage then chatLanguage[chat] else DefaultLanguageId;
      var inQuiz := chat in sessions;
      var notice: seq<Action> := [];
      if Falsy(u.text) {
        notice := [Send(chat, lang, NoText)];
      }
      var routed: seq<Action>;
      if inQuiz {
        routed, crash := HandleInQuiz(chat, lang, u.text);
      } else {
        routed, crash := HandleIdle(catalog, chat, lang, u.text);
      }
      actions := notice + routed;
      if crash.None? {
        offset := Some(u.updateId + 1);
      }
    }

    /** The loop of `main` over a finite sequence of updates; it ends at the
        first crash. */
    method Serve(catalog: Category -> CategoryData, updates: seq<Update>) returns (actions: seq<Action>, crash: Option<Crash>)
      requires Wf(State())
      modifies this
      ensures StepResult(State(), actions, crash) == RunUpdates(catalog, old(State()), updates)
    {
      ghost var whole := RunUpdates(catalog, State(), updates);
      actions, crash := [], None;
      assert updates[0..] == updates && [] + whole.actions == whole.actions;
      var i := 0;
      while i < |updates|
        invariant ServedUpTo(catalog, whole, updates, i, State(), actions)
      {
        ghost var s := State();
        var sent, stop := HandleUpdate(catalog, updates[i]);
        ServeNext(catalog, whole, updates, i, s, actions, State(), sent, stop);
        actions := actions + sent;
        if stop.Some? {
          return actions, stop;
        }
        i := i + 1;
      }
      ServeEnd(catalog, whole, updates, State(), actions);
    }
  }
}
