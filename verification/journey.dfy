/**
 The flow as the screens drive it. The handlers themselves accept any
 state; each screen only offers its own gestures: the heart on screen 0,
 the answer on screen 1, the four date types on screen 2, the options of
 the chosen date type on screen 3, and reset on screen 4. Runs that only
 use offered gestures keep the choices consistent with the screen.
 */
module Journey {
  import opened Wrappers
  import opened Catalog
  import opened Flow
  import opened View

  /** Whether the screen showing for `s` offers gesture `e`. Only screen 3
      offers places, and only when the recorded date type has some. */
  predicate Offered(s: State, e: Event)
    ensures Offered(s, e) ==> ValidStep(s)
    ensures Offered(s, e) && e.PickPlace? ==> OffersPlaces(s.dateChoice)
  {
    match e
    case Heart => s.step == 0
    case Answer => s.step == 1
    case PickDate(c) => s.step == 2 && c in DateTypes
    case PickPlace(p, _) => s.step == 3 && p in RestaurantOptions(s.dateChoice)
    case ResetAll => s.step == 4
  }

  /** Every gesture of `es` is offered by the screen it is made on. */
  predicate OfferedRun(s: State, es: seq<Event>)
    decreases |es|
  {
    es == [] || (Offered(s, es[0]) && OfferedRun(Apply(s, es[0]), es[1..]))
  }

  /** What each screen can hold on a run that started from the initial state. */
  predicate Consistent(s: State) {
    && ValidStep(s)
    && (s.step <= 2 ==> s.dateChoice == "" && s.restaurantChoice == "" && s.customPlace == "")
    && (s.step == 3 ==> OffersPlaces(s.dateChoice) && s.restaurantChoice == "" && s.customPlace == "")
    && (s.step == 4 ==> s.dateChoice in DateTypes)
    && (s.step == 4 && s.dateChoice == NoRestaurantDate ==>
          s.restaurantChoice == NoRestaurantSentinel && s.customPlace == "")
    && (s.step == 4 && s.dateChoice != NoRestaurantDate ==>
          (s.restaurantChoice == "" || s.restaurantChoice in RestaurantOptions(s.dateChoice)))
    && (s.customPlace != "" <==> s.restaurantChoice == CustomOption)
  }

  lemma InitialConsistent()
    ensures Consistent(Initial)
  {
  }

  /** An offered gesture keeps the state consistent. */
  lemma OfferedKeepsConsistent(s: State, e: Event)
    requires Consistent(s) && Offered(s, e)
    ensures Consistent(Apply(s, e))
  {
  }

  /** Every offered run keeps the state consistent. */
  lemma {:induction false} OfferedRunKeepsConsistent(s: State, es: seq<Event>)
    requires Consistent(s) && OfferedRun(s, es)
    ensures Consistent(Run(s, es))
    decreases |es|
  {
    if es != [] {
      OfferedKeepsConsistent(s, es[0]);
      OfferedRunKeepsConsistent(Apply(s, es[0]), es[1..]);
    }
  }

  /** On a run from the initial state, the place screen is never reached with
      the date type that has no restaurant, and always has options to offer. */
  lemma PlaceScreenHasOptions(es: seq<Event>)
    requires OfferedRun(Initial, es)
    requires Run(Initial, es).step == 3
    ensures Run(Initial, es).dateChoice != NoRestaurantDate
    ensures |RestaurantOptions(Run(Initial, es).dateChoice)| in {5, 6, 10}
  {
    InitialConsistent();
    OfferedRunKeepsConsistent(Initial, es);
  }

  /** On a run from the initial state, the summary shows an image exactly when
      a place was picked from a catalog, or the custom prompt was cancelled
      (then with an empty place). */
  lemma SummaryImageIff(es: seq<Event>)
    requires OfferedRun(Initial, es)
    requires Run(Initial, es).step == 4
    ensures var t := Run(Initial, es);
      ShowImage(t) <==> IsCatalogPlace(t.restaurantChoice) || t.restaurantChoice == ""
  {
    InitialConsistent();
    OfferedRunKeepsConsistent(Initial, es);
    var t := Run(Initial, es);
  }

  /** The intended path: heart, yes, dinner, then a dinner place. */
  lemma DinnerScenario()
    ensures var s1 := HeartClick(Initial);
            var s2 := ValentineAnswer(s1);
            var s3 := DateChoice(s2, DinnerDate);
            var s4 := RestaurantChoice(s3, "Tsuki", None);
      && s1.step == 1 && s2.step == 2 && s3.step == 3
      && RestaurantOptions(s3.dateChoice) == ["Mister Merchants", "Tsuki", "Cafe Paash", "Kukoo", "Custom"]
      && s4.step == 4 && s4.restaurantChoice == "Tsuki" && s4.dateChoice == "Hotel n Dinner"
      && DisplayPlace(s4) == "Tsuki" && ShowImage(s4) && ImageFile("Tsuki") == "tsuki.jpg"
      && OfferedRun(Initial, [Heart, Answer, PickDate(DinnerDate), PickPlace("Tsuki", None)])
  {
    var es := [Heart, Answer, PickDate(DinnerDate), PickPlace("Tsuki", None)];
    var s3 := DateChoice(ValentineAnswer(HeartClick(Initial)), DinnerDate);
    assert OfferedRun(RestaurantChoice(s3, "Tsuki", None), es[4..]);
    assert OfferedRun(s3, es[3..]);
    assert OfferedRun(ValentineAnswer(HeartClick(Initial)), es[2..]);
    assert OfferedRun(HeartClick(Initial), es[1..]);
  }

  /** A date click arriving after the summary screen was reached through the
      date type without a restaurant lands on screen 3 still holding the
      sentinel place, a state outside the invariant. */
  lemma StaleDateClickLeavesInvariant()
    ensures var t := Run(Initial, [Heart, Answer, PickDate(NoRestaurantDate), PickDate(DinnerDate)]);
      t.step == 3 && t.restaurantChoice == NoRestaurantSentinel && !Consistent(t)
  {
    var es := [Heart, Answer, PickDate(NoRestaurantDate), PickDate(DinnerDate)];
    var s3 := DateChoice(ValentineAnswer(HeartClick(Initial)), NoRestaurantDate);
    var s4 := DateChoice(s3, DinnerDate);
    assert Run(s4, es[4..]) == s4;
    assert Run(s3, es[3..]) == s4;
    assert Run(ValentineAnswer(HeartClick(Initial)), es[2..]) == s4;
    assert Run(HeartClick(Initial), es[1..]) == s4;
  }
}
