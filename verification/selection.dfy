/** The selection state machine of the widget: the event handlers, the effect that starts an
    image fetch whenever the current meal changes, and whole runs of events. */
module Selection {
  import opened Options
  import opened Catalog
  import opened ImageFetch

  /** The component's state. `selectedMealTime` is the raw key (`string | null`). */
  datatype State = State(
    selectedMealTime: Option<string>,
    currentMeal: Option<Meal>,
    preference: Preference,
    image: ImageState)

  /** The state the component starts in: selector screen, regular preference. */
  const Init := State(None, None, Regular, ImageFetch.Initial)

  /** A meal that appears somewhere in the table. */
  ghost predicate InCatalog(m: Meal) {
    exists t, p :: m in Meals(t, p)
  }

  /** A search term of some entry of the table. */
  ghost predicate CatalogQuery(q: string) {
    exists t, p, i :: 0 <= i < |Meals(t, p)| && Meals(t, p)[i].query == q
  }

  /** What every state reached by the handlers satisfies: the selected key, if any, is one of
      the table's three keys, and the current meal, if any, is a table entry. */
  ghost predicate Valid(s: State) {
    && (s.selectedMealTime.Some? ==> s.selectedMealTime.value in SelectorKeys)
    && (s.currentMeal.Some? ==> InCatalog(s.currentMeal.value))
  }

  lemma InitValid()
    ensures Valid(Init)
  {
  }

  /** Choosing a dietary preference stores it and touches nothing else; in particular the
      meal on screen is not recomputed. */
  function ChangePreference(s: State, p: Preference): (r: State)
    ensures r.preference == p
    ensures r.selectedMealTime == s.selectedMealTime && r.currentMeal == s.currentMeal
    ensures r.image == s.image
  {
    s.(preference := p)
  }

  /** Choosing a meal time by key. A key of the table (whose list is never empty) selects it
      and shows its first entry for the current preference; any other key clears the current
      meal and leaves the selected key as it was. */
  function SelectMealTime(s: State, key: string): (r: State)
    ensures forall t :: Key(t) == key ==>
      r.selectedMealTime == Some(key) && r.currentMeal == Some(Meals(t, s.preference)[0])
    ensures key !in SelectorKeys ==>
      r.selectedMealTime == s.selectedMealTime && r.currentMeal == None
    ensures r.preference == s.preference && r.image == s.image
  {
    match Lookup(key, s.preference)
    case Some(list) =>
      if |list| > 0 then s.(selectedMealTime := Some(key), currentMeal := Some(list[0]))
      else s.(currentMeal := None)
    case None =>
      s.(currentMeal := None)
  }

  /** The index `floor(draw * len)` of a uniform draw in [0, 1) over a list of length `len`. */
  function DrawIndex(draw: real, len: nat): (i: nat)
    requires 0.0 <= draw < 1.0 && len > 0
    ensures i < len
    ensures i as real <= draw * len as real < i as real + 1.0
  {
    assert draw * len as real < len as real;
    (draw * len as real).Floor
  }

  /** Every index of a list is drawn by some value of the draw. */
  lemma DrawReachesEvery(len: nat, i: nat)
    requires i < len
    ensures 0.0 <= i as real / len as real < 1.0
    ensures DrawIndex(i as real / len as real, len) == i
  {
    assert (i as real / len as real) * len as real == i as real;
  }

  /** Refresh: with a meal time selected, the current meal becomes the drawn entry of that
      time's list for the preference in force now (not the one in force when the time was
      chosen); with none selected nothing happens. */
  function Refresh(s: State, draw: real): (r: State)
    requires Valid(s)
    requires 0.0 <= draw < 1.0
    ensures s.selectedMealTime.None? ==> r == s
    ensures forall t :: s.selectedMealTime == Some(Key(t)) ==>
      r.currentMeal.Some? && r.currentMeal.value in Meals(t, s.preference)
    ensures forall t :: s.selectedMealTime == Some(Key(t)) ==>
      r.currentMeal == Some(Meals(t, s.preference)[DrawIndex(draw, |Meals(t, s.preference)|)])
    ensures r.selectedMealTime == s.selectedMealTime && r.preference == s.preference
    ensures r.image == s.image
  {
    match s.selectedMealTime
    case None => s
    case Some(k) =>
      var list := Meals(ParseMealTime(k).value, s.preference);
      s.(currentMeal := Some(list[DrawIndex(draw, |list|)]))
  }

  /** Entry `j` of a list of length `len` is what every draw in [j/len, (j+1)/len) refreshes
      to, an interval of width 1/len, so a uniform draw picks each entry with equal, non-zero
      probability; in particular some draw reaches each entry. */
  lemma RefreshReachesEvery(s: State, t: MealTime, j: nat)
    requires Valid(s)
    requires s.selectedMealTime == Some(Key(t))
    requires j < |Meals(t, s.preference)|
    ensures forall draw: real ::
      (0.0 <= draw < 1.0 && j as real <= draw * |Meals(t, s.preference)| as real < j as real + 1.0) ==>
      Refresh(s, draw).currentMeal == Some(Meals(t, s.preference)[j])
    ensures exists draw: real :: 0.0 <= draw < 1.0 && Refresh(s, draw).currentMeal == Some(Meals(t, s.preference)[j])
  {
    var len := |Meals(t, s.preference)|;
    KeyRoundTrip(t);
    forall draw: real | 0.0 <= draw < 1.0 && j as real <= draw * len as real < j as real + 1.0
      ensures Refresh(s, draw).currentMeal == Some(Meals(t, s.preference)[j])
    {
      assert DrawIndex(draw, len) == j;
    }
    DrawReachesEvery(len, j);
    var draw := j as real / len as real;
    assert Refresh(s, draw).currentMeal == Some(Meals(t, s.preference)[j]);
  }

  /** The Back button: back to the selector; the current meal, preference and image remain. */
  function Back(s: State): (r: State)
    ensures r.selectedMealTime == None
    ensures r.currentMeal == s.currentMeal && r.preference == s.preference && r.image == s.image
  {
    s.(selectedMealTime := None)
  }

  /** What can happen to the widget: a button press or the completion of an image request.
      A refresh carries the value of its random draw. */
  datatype Event =
    | ChooseDiet(pref: Preference)
    | ChooseTime(key: string)
    | PressRefresh(draw: real)
    | GoBack
    | FetchDone(outcome: Outcome)

  /** The random draw of a refresh lies in [0, 1). */
  predicate EventOk(e: Event) {
    e.PressRefresh? ==> 0.0 <= e.draw < 1.0
  }

  /** The state after an event, and the search term of the image request it starts, if any. */
  datatype Transition = Transition(state: State, fetch: Option<string>)

  /** The effect run after every change: an image request for the current meal starts when
      the current meal differs from `prev` and is set. Entries are compared by value, which
      for this table is the same as by identity (Catalog.EntriesDistinct). */
  function Effect(prev: Option<Meal>, s: State): (t: Transition)
    ensures t.fetch.Some? <==> s.currentMeal.Some? && s.currentMeal != prev
    ensures t.fetch.Some? ==> t.fetch.value == s.currentMeal.value.query
    ensures t.state.image == (if t.fetch.Some? then Start(s.image) else s.image)
    ensures t.state.selectedMealTime == s.selectedMealTime && t.state.currentMeal == s.currentMeal
    ensures t.state.preference == s.preference
  {
    match s.currentMeal
    case Some(m) =>
      if s.currentMeal != prev then Transition(s.(image := Start(s.image)), Some(m.query))
      else Transition(s, None)
    case None => Transition(s, None)
  }

  /** Selecting a meal time keeps the invariant: the key stored is a table key, and the meal
      shown is the first entry of that key's list. */
  lemma SelectKeepsValid(s: State, key: string)
    requires Valid(s)
    ensures Valid(SelectMealTime(s, key))
  {
    if key in SelectorKeys {
      var t := ParseMealTime(key).value;
      assert Meals(t, s.preference)[0] in Meals(t, s.preference);
    }
  }

  /** Refreshing keeps the invariant: the meal drawn is an entry of the selected time's list. */
  lemma RefreshKeepsValid(s: State, draw: real)
    requires Valid(s) && 0.0 <= draw < 1.0
    ensures Valid(Refresh(s, draw))
  {
    if s.selectedMealTime.Some? {
      var t := ParseMealTime(s.selectedMealTime.value).value;
      assert s.selectedMealTime == Some(Key(t));
    }
  }

  /** The state change an event makes by itself, before the effect runs. */
  function Handle(s: State, e: Event): (r: State)
    requires Valid(s) && EventOk(e)
    ensures Valid(r)
  {
    match e
    case ChooseDiet(p) => ChangePreference(s, p)
    case ChooseTime(k) => SelectKeepsValid(s, k); SelectMealTime(s, k)
    case PressRefresh(d) => RefreshKeepsValid(s, d); Refresh(s, d)
    case GoBack => Back(s)
    case FetchDone(o) => s.(image := Complete(s.image, o))
  }

  /** One event followed by the effect. The result satisfies the invariant again, and an image
      request starts exactly when the event changed the current meal to a meal, for that
      meal's search term, with the loading flag raised. */
  function Step(s: State, e: Event): (t: Transition)
    requires Valid(s) && EventOk(e)
    ensures Valid(t.state)
    ensures t.fetch.Some? <==> t.state.currentMeal.Some? && t.state.currentMeal != s.currentMeal
    ensures t.fetch.Some? ==> t.fetch.value == t.state.currentMeal.value.query && t.state.image.isLoading
  {
    Effect(s.currentMeal, Handle(s, e))
  }

  /** A run of events: the final state and the search terms requested, in order. */
  datatype Trace = Trace(state: State, fetches: seq<string>)

  /** Any run of events keeps the invariant, and every image request of the run is for the
      search term of a table entry. */
  function Run(s: State, es: seq<Event>): (r: Trace)
    requires Valid(s)
    requires forall i :: 0 <= i < |es| ==> EventOk(es[i])
    ensures Valid(r.state)
    ensures |r.fetches| <= |es|
    ensures forall q :: q in r.fetches ==> CatalogQuery(q)
    decreases |es|
  {
    if es == [] then Trace(s, [])
    else
      var t := Step(s, es[0]);
      var rest := Run(t.state, es[1..]);
      if t.fetch.Some? then
        var m := t.state.currentMeal.value;
        assert InCatalog(m);
        var tt, p :| m in Meals(tt, p);
        var i :| 0 <= i < |Meals(tt, p)| && Meals(tt, p)[i] == m;
        assert CatalogQuery(m.query);
        Trace(rest.state, [m.query] + rest.fetches)
      else Trace(rest.state, rest.fetches)
  }
}
