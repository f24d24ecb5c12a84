/** The fixed meals table: meal time -> dietary preference -> ordered list of meals. */
module Catalog {
  import opened Options

  /** The three top-level keys of the table. */
  datatype MealTime = Morning | Lunch | Dinner

  /** The three dietary preferences of every meal time. */
  datatype Preference = Regular | Vegetarian | Vegan

  /** One catalog entry: the name shown to the user and the image search term. */
  datatype Meal = Meal(name: string, query: string)

  /** The key under which a meal time is stored in the table. */
  function Key(t: MealTime): string {
    match t
    case Morning => "morning"
    case Lunch => "lunch"
    case Dinner => "dinner"
  }

  /** The meal-time buttons of the selector screen, in display order. */
  const SelectorKeys: seq<string> := ["morning", "lunch", "dinner"]

  /** Reads a meal-time key as the selection guard does: an inherited property name such as
      "constructor" is found on the table but has no preference lists, so in the end only the
      three own keys resolve. */
  function ParseMealTime(k: string): (r: Option<MealTime>)
    ensures r.Some? <==> k in SelectorKeys
    ensures r.Some? ==> Key(r.value) == k
  {
    if k == "morning" then Some(Morning)
    else if k == "lunch" then Some(Lunch)
    else if k == "dinner" then Some(Dinner)
    else None
  }

  /** Every meal time is found again from its own key, and the key set is exactly the buttons. */
  lemma KeyRoundTrip(t: MealTime)
    ensures ParseMealTime(Key(t)) == Some(t)
    ensures Key(t) in SelectorKeys
  {
  }

  /** The list of meals for one meal time and preference, in table order. */
  function Meals(t: MealTime, p: Preference): (r: seq<Meal>)
    ensures |r| > 0
    ensures |r| == if p == Regular then 2 else 1
  {
    match (t, p)
    case (Morning, Regular) =>
      [Meal("Omelette", "omelette breakfast"), Meal("Pancakes", "pancakes breakfast")]
    case (Morning, Vegetarian) =>
      [Meal("Vegetable Omelette", "vegetable omelette breakfast")]
    case (Morning, Vegan) =>
      [Meal("Vegan Pancakes", "vegan pancakes breakfast")]
    case (Lunch, Regular) =>
      [Meal("Sandwich", "sandwich lunch"), Meal("Salad", "salad lunch")]
    case (Lunch, Vegetarian) =>
      [Meal("Vegetarian Wrap", "vegetarian wrap lunch")]
    case (Lunch, Vegan) =>
      [Meal("Vegan Salad", "vegan salad lunch")]
    case (Dinner, Regular) =>
      [Meal("Spaghetti", "spaghetti dinner"), Meal("Steak", "steak dinner")]
    case (Dinner, Vegetarian) =>
      [Meal("Vegetarian Pasta", "vegetarian pasta dinner")]
    case (Dinner, Vegan) =>
      [Meal("Vegan Burger", "vegan burger dinner")]
  }

  /** Looks up a raw meal-time key; keys outside the table yield no list at all. */
  function Lookup(key: string, p: Preference): (r: Option<seq<Meal>>)
    ensures r.Some? <==> key in SelectorKeys
    ensures forall t :: Key(t) == key ==> r == Some(Meals(t, p))
  {
    match ParseMealTime(key)
    case Some(t) => Some(Meals(t, p))
    case None => None
  }

  /** No two positions of the table hold equal entries, so comparing entries by value
      agrees with comparing the table's entry objects by identity. */
  lemma EntriesDistinct(t1: MealTime, p1: Preference, i: nat, t2: MealTime, p2: Preference, j: nat)
    requires i < |Meals(t1, p1)| && j < |Meals(t2, p2)|
    requires Meals(t1, p1)[i] == Meals(t2, p2)[j]
    ensures t1 == t2 && p1 == p2 && i == j
  {
  }
}
