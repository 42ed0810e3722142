/**
 The flow controller: the four-field state record and the five handlers
 that move it between the screens 0 (heart), 1 (question), 2 (pick a date),
 3 (pick a place) and 4 (summary). The handlers are pure functions of the
 current state; the answer to the free-text prompt is an explicit argument.
 */
module Flow {
  import opened Wrappers
  import opened Catalog

  /** The value recorded as the place when the date type has no restaurant. */
  const NoRestaurantSentinel: string := "No restaurant selected"

  datatype State = State(step: int, dateChoice: string, restaurantChoice: string, customPlace: string)

  /** The state before anything is chosen, and after a reset. */
  const Initial: State := State(0, "", "", "")

  /** The screen index is one of the five screens. */
  predicate ValidStep(s: State) {
    0 <= s.step <= 4
  }

  /** The three choice strings of `s` and `t` agree. */
  predicate SameChoices(s: State, t: State) {
    s.dateChoice == t.dateChoice && s.restaurantChoice == t.restaurantChoice && s.customPlace == t.customPlace
  }

  /** A prompt answer counts as given when it is neither cancelled nor empty. */
  predicate Answered(input: Option<string>) {
    input.Some? && input.value != ""
  }

  /** Clicking the heart opens the question screen. */
  function HeartClick(s: State): (r: State)
    ensures r.step == 1 && SameChoices(s, r)
  {
    s.(step := 1)
  }

  /** Answering the question opens the date screen. */
  function ValentineAnswer(s: State): (r: State)
    ensures r.step == 2 && SameChoices(s, r)
  {
    s.(step := 2)
  }

  /** Picking a date type records it; the date type without a restaurant
      records the sentinel place and skips straight to the summary. */
  function DateChoice(s: State, choice: string): (r: State)
    ensures r.dateChoice == choice && r.customPlace == s.customPlace
    ensures choice == NoRestaurantDate ==> r.step == 4 && r.restaurantChoice == NoRestaurantSentinel
    ensures choice != NoRestaurantDate ==> r.step == 3 && r.restaurantChoice == s.restaurantChoice
  {
    if choice == NoRestaurantDate then
      s.(dateChoice := choice, restaurantChoice := NoRestaurantSentinel, step := 4)
    else
      s.(dateChoice := choice, step := 3)
  }

  /** Picking a place always opens the summary. A catalog place is recorded
      directly; the custom option records the prompt answer only when one was
      given, and otherwise leaves both place fields as they were. */
  function RestaurantChoice(s: State, place: string, input: Option<string>): (r: State)
    ensures r.step == 4 && r.dateChoice == s.dateChoice
    ensures place != CustomOption ==> r.restaurantChoice == place && r.customPlace == s.customPlace
    ensures place == CustomOption && Answered(input) ==>
              r.restaurantChoice == CustomOption && r.customPlace == input.value
    ensures place == CustomOption && !Answered(input) ==>
              r.restaurantChoice == s.restaurantChoice && r.customPlace == s.customPlace
  {
    var recorded :=
      if place == CustomOption then
        if Answered(input) then s.(restaurantChoice := CustomOption, customPlace := input.value) else s
      else
        s.(restaurantChoice := place);
    recorded.(step := 4)
  }

  /** Resetting clears every field, whatever the state was. */
  function Reset(s: State): (r: State)
    ensures r.step == 0 && r.dateChoice == "" && r.restaurantChoice == "" && r.customPlace == ""
  {
    Initial
  }

  /** One user gesture, as delivered to the controller. */
  datatype Event =
    | Heart
    | Answer
    | PickDate(choice: string)
    | PickPlace(place: string, input: Option<string>)
    | ResetAll

  /** The handler a gesture invokes. */
  function Apply(s: State, e: Event): State {
    match e
    case Heart => HeartClick(s)
    case Answer => ValentineAnswer(s)
    case PickDate(c) => DateChoice(s, c)
    case PickPlace(p, input) => RestaurantChoice(s, p, input)
    case ResetAll => Reset(s)
  }

  /** The state after a sequence of gestures, first gesture first. */
  function Run(s: State, es: seq<Event>): State
    decreases |es|
  {
    if es == [] then s else Run(Apply(s, es[0]), es[1..])
  }

  /** Every handler lands on one of the five screens, from any state. */
  lemma ApplyKeepsStepInRange(s: State, e: Event)
    ensures ValidStep(Apply(s, e))
  {
  }

  /** A non-empty sequence of gestures ends on one of the five screens,
      even from a state whose step is out of range. */
  lemma {:induction false} RunKeepsStepInRange(s: State, es: seq<Event>)
    requires ValidStep(s) || es != []
    ensures ValidStep(Run(s, es))
    decreases |es|
  {
    if es != [] {
      ApplyKeepsStepInRange(s, es[0]);
      RunKeepsStepInRange(Apply(s, es[0]), es[1..]);
    }
  }

  /** Reset is idempotent. */
  lemma ResetIdempotent(s: State)
    ensures Reset(Reset(s)) == Reset(s)
  {
  }

  /** Whatever happened before, a final reset yields the initial state. */
  lemma {:induction false} ResetForgetsHistory(s: State, es: seq<Event>)
    ensures Run(s, es + [ResetAll]) == Initial
    decreases |es|
  {
    if es == [] {
      assert es + [ResetAll] == [ResetAll];
    } else {
      assert (es + [ResetAll])[1..] == es[1..] + [ResetAll];
      ResetForgetsHistory(Apply(s, es[0]), es[1..]);
    }
  }

  /** Cancelling the custom prompt, or answering it with nothing, records
      nothing but still moves to the summary screen. */
  lemma CancelledCustomStillAdvances(s: State, input: Option<string>)
    requires !Answered(input)
    ensures RestaurantChoice(s, CustomOption, input) == s.(step := 4)
  {
  }

  /** The prompt answer is recorded exactly when it is not cancelled and not
      empty. */
  lemma CustomRecordedIff(s: State, input: Option<string>)
    requires s.restaurantChoice != CustomOption
    ensures RestaurantChoice(s, CustomOption, input).restaurantChoice == CustomOption <==> Answered(input)
  {
  }

  /** A whitespace-only answer is a given answer, and is recorded as typed. */
  lemma BlankAnswerRecorded(s: State)
    ensures RestaurantChoice(s, CustomOption, Some(" ")).customPlace == " "
    ensures RestaurantChoice(s, CustomOption, Some(" ")).restaurantChoice == CustomOption
  {
  }
}
