/** The two screens of the widget, which buttons each one offers, and what holds of every
    state reachable by pressing only offered buttons. */
module Widget {
  import opened Options
  import opened Catalog
  import opened ImageFetch
  import opened Selection

  /** The result card: the meal's name and search term above its picture area. */
  datatype Card = Card(name: string, query: string, picture: Picture)

  /** The selector screen (preference buttons, then meal-time buttons), or the result screen
      headed by the selected key, with the card when there is a current meal. */
  datatype Screen = Selector(preference: Preference) | Result(heading: string, card: Option<Card>)

  /** The screen a state renders. An empty key counts as no selection, as the component's
      `!selectedMealTime` test does. */
  function View(s: State): (v: Screen)
    ensures v.Selector? <==> s.selectedMealTime.None? || s.selectedMealTime.value == ""
    ensures v.Result? ==> (v.card.Some? <==> s.currentMeal.Some?)
    ensures v.Result? ==> v.heading == s.selectedMealTime.value
    ensures v.Result? && v.card.Some? ==>
      v.card.value == Card(s.currentMeal.value.name, s.currentMeal.value.query, Show(s.image))
  {
    match s.selectedMealTime
    case None => Selector(s.preference)
    case Some(k) =>
      if k == "" then Selector(s.preference)
      else
        match s.currentMeal
        case None => Result(k, None)
        case Some(m) => Result(k, Some(Card(m.name, m.query, Show(s.image))))
  }

  /** The events a state lets happen: on the selector, the preference buttons and the three
      meal-time buttons; on the result screen, Back, and Refresh inside the card; an image
      request may complete at any time. */
  function Offered(s: State, e: Event): (r: bool)
    ensures e.FetchDone? ==> r
    ensures e.ChooseDiet? ==> (r <==> View(s).Selector?)
    ensures e.ChooseTime? ==> (r <==> View(s).Selector? && e.key in SelectorKeys)
    ensures e.GoBack? ==> (r <==> View(s).Result?)
    ensures e.PressRefresh? ==> (r <==> View(s).Result? && s.currentMeal.Some?)
  {
    match View(s)
    case Selector(_) =>
      e.ChooseDiet? || (e.ChooseTime? && e.key in SelectorKeys) || e.FetchDone?
    case Result(_, card) =>
      e.GoBack? || (e.PressRefresh? && card.Some?) || e.FetchDone?
  }

  /** The invariant of states reached through the screens: with a meal time selected, the
      current meal is an entry of that time's list for the preference in force. */
  ghost predicate UiInv(s: State) {
    && Valid(s)
    && (s.selectedMealTime.Some? ==>
         && s.currentMeal.Some?
         && s.currentMeal.value in Meals(ParseMealTime(s.selectedMealTime.value).value, s.preference))
  }

  lemma InitUiInv()
    ensures UiInv(Init)
  {
  }

  /** An offered event keeps the invariant. A meal-time button always reaches the result screen
      with a card: from the screens, a selection never takes the invalid branch. */
  lemma OfferedStepKeepsUiInv(s: State, e: Event)
    requires UiInv(s) && EventOk(e) && Offered(s, e)
    ensures UiInv(Step(s, e).state)
    ensures e.ChooseTime? ==> View(Step(s, e).state).Result? && View(Step(s, e).state).card.Some?
  {
  }

  /** A run of button presses and completions through the screens: an event the current
      screen does not offer is not performed. Every state reached this way from one satisfying
      the invariant satisfies it; in particular a refresh always draws from the list of the
      preference the meal time was chosen under, because the preference buttons are only on
      the selector screen. */
  function UiRun(s: State, es: seq<Event>): (r: State)
    requires UiInv(s)
    requires forall i :: 0 <= i < |es| ==> EventOk(es[i])
    ensures UiInv(r)
    decreases |es|
  {
    if es == [] then s
    else if Offered(s, es[0]) then
      OfferedStepKeepsUiInv(s, es[0]);
      UiRun(Step(s, es[0]).state, es[1..])
    else UiRun(s, es[1..])
  }

  /** On the result screen of a reachable state the card, and so the Refresh button, is there. */
  lemma ResultScreenHasCard(s: State)
    requires UiInv(s) && View(s).Result?
    ensures View(s).card.Some?
    ensures Offered(s, PressRefresh(0.0))
  {
  }

  /** With a one-entry list in force, refresh picks the meal already shown: nothing changes and
      no image request starts. */
  lemma RefreshOnSingleEntryIsIdle(s: State, d: real)
    requires UiInv(s) && s.selectedMealTime.Some? && s.preference != Regular
    requires 0.0 <= d < 1.0
    ensures Step(s, PressRefresh(d)) == Transition(s, None)
  {
  }

  /** Back and then the same meal-time button again, when the first entry is still shown: the
      same card and picture come back and no image request starts. */
  lemma BackThenSameTimeRefetchesNothing(s: State, t: MealTime)
    requires UiInv(s) && s.selectedMealTime == Some(Key(t))
    requires s.currentMeal == Some(Meals(t, s.preference)[0])
    ensures Step(Step(s, GoBack).state, ChooseTime(Key(t))) == Transition(s, None)
  {
  }

  /** Back and then a different meal-time button: the first entry of the new time for the
      preference in force is shown and its image is requested. */
  lemma BackThenOtherTimeFetches(s: State, t: MealTime, u: MealTime)
    requires UiInv(s) && s.selectedMealTime == Some(Key(t)) && u != t
    ensures Step(Step(s, GoBack).state, ChooseTime(Key(u))).state.currentMeal == Some(Meals(u, s.preference)[0])
    ensures Step(Step(s, GoBack).state, ChooseTime(Key(u))).fetch == Some(Meals(u, s.preference)[0].query)
  {
  }

  /** Vegan, then lunch: "Vegan Salad" is shown and "vegan salad lunch" is requested. A photo
      then shows; an empty listing instead shows the placeholder and keeps the meal. */
  lemma LunchVeganScenario(url: string)
    ensures var a := Step(Step(Init, ChooseDiet(Vegan)).state, ChooseTime("lunch"));
      && a.state.currentMeal == Some(Meal("Vegan Salad", "vegan salad lunch"))
      && a.fetch == Some("vegan salad lunch")
      && View(a.state) == Result("lunch", Some(Card("Vegan Salad", "vegan salad lunch", Spinner)))
      && View(Step(a.state, FetchDone(Listing([url]))).state)
         == Result("lunch", Some(Card("Vegan Salad", "vegan salad lunch", Photo(url))))
      && View(Step(a.state, FetchDone(Listing([]))).state)
         == Result("lunch", Some(Card("Vegan Salad", "vegan salad lunch", Unavailable)))
  {
  }

  /** A key outside the table stays on the selector, clears the meal and requests nothing. */
  lemma UnknownKeyScenario()
    ensures Step(Init, ChooseTime("brunch")) == Transition(Init, None)
    ensures View(Init).Selector?
  {
  }
}
