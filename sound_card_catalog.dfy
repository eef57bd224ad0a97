/** The sound-card data both `SoundCard` drivers carry as class attributes:
    three questions and two candidate cards with their conditional
    probabilities. The producer and model of a record are its
    `card_producer` and `card_model`; its empty `image_path` is the image
    reference; the first record's `current_rate` is not read by either
    driver and is dropped. Neither driver validates the records. */
module SoundCardCatalog {
  import opened Wrappers
  import opened BeliefEngine
  import opened ExpertModel
  import opened ConsoleSession

  const Questions: seq<string> := [
    "Вам потрібна компактна звукова карта?",
    "Вам потрібна дешева звукова карта?",
    "Ви будете записувати більше 2-х інструментів одночачно?"
  ]

  const Focusrite := Outcome(
    1, "Focusrite", "Scarlett Solo 2nd Gen", Some(""),
    "Focusrite Scarlett Solo 2nd Gen: XLR and TRS inputs, phantom power, two RCA outputs, USB bus power",
    0.5,
    map[1 := Estimation(0.7, 0.01), 2 := Estimation(0.4, 0.1), 3 := Estimation(0.9, 0.2)])

  const Fake := Outcome(
    2, "Fake", "FakeFake", Some(""), "Sheet",
    0.5,
    map[1 := Estimation(0.4, 0.1), 2 := Estimation(0.05, 0.2), 3 := Estimation(0.7, 0.1)])

  const Outcomes: seq<Outcome> := [Focusrite, Fake]

  /** Each of the two cards has an estimation for every one of the three
      questions, and every probability of the catalog lies strictly between
      0 and 1. Read with the renamed keys, the records also satisfy
      `ValidOutcome`; the dictionaries themselves carry other key names. */
  lemma CatalogSupported()
    ensures |Questions| == 3
    ensures Supported(Outcomes, |Questions|)
    ensures forall o <- Outcomes :: ValidOutcome(o)
  {
    forall o, key | o in Outcomes && 1 <= key <= 3
      ensures key in o.estimations
    {
      assert key == 1 || key == 2 || key == 3;
    }
  }

  /** A run of either sound-card driver over this catalog, at the default
      weights, never raises inside an update rule, completes once each of
      the three questions has a reply, and keeps every belief strictly
      between 0 and 1. */
  lemma CatalogRunKeepsSupport(replies: seq<string>)
    ensures !ConsoleRun(DefaultRates, Outcomes, replies, 3).1.Crashed?
    ensures |replies| >= 3 ==> ConsoleRun(DefaultRates, Outcomes, replies, 3).1 == Completed
    ensures Supported(ConsoleRun(DefaultRates, Outcomes, replies, 3).0, 3)
  {
    CatalogSupported();
    DefaultRatesAccepted();
    ConsoleRunKeepsSupport(DefaultRates, Outcomes, replies, 3);
  }
}
