/**
 * The diet screen: the tab that selects a meal category, the meal filter,
 * the consumed toggle and its toast, the payload of a logged meal, the blank
 * shopping-item guard and the points badge.
 */
module Diet {
  import opened Common
  import opened Text
  import opened Records

  /** The category map of the four tabs; any other tab maps to nothing. */
  function CategoryForTab(tab: string): (r: Option<Category>)
    ensures r == Some(Breakfast) <==> tab == "Café"
    ensures r == Some(Lunch) <==> tab == "Almoço"
    ensures r == Some(Snack) <==> tab == "Lanches"
    ensures r == Some(Dinner) <==> tab == "Jantar"
  {
    if tab == "Café" then Some(Breakfast)
    else if tab == "Almoço" then Some(Lunch)
    else if tab == "Lanches" then Some(Snack)
    else if tab == "Jantar" then Some(Dinner)
    else None
  }

  /** `filteredMeals`: the meals of the tab's category, in their original order. */
  function FilteredMeals(meals: seq<Meal>, tab: string): (r: seq<Meal>)
    ensures |r| <= |meals|
    ensures forall m :: m in r <==> m in meals && CategoryForTab(tab) == Some(m.category)
    ensures CategoryForTab(tab).None? ==> r == []
  {
    if meals == [] then []
    else
      assert forall m :: m in meals <==> m == meals[0] || m in meals[1..];
      (if CategoryForTab(tab) == Some(meals[0].category) then [meals[0]] else []) + FilteredMeals(meals[1..], tab)
  }

  /** Filtering distributes over concatenation, so the filter keeps the original order. */
  lemma {:induction false} FilterDistributes(a: seq<Meal>, b: seq<Meal>, tab: string)
    ensures FilteredMeals(a + b, tab) == FilteredMeals(a, tab) + FilteredMeals(b, tab)
  {
    if a != [] {
      assert (a + b)[0] == a[0];
      assert (a + b)[1..] == a[1..] + b;
      FilterDistributes(a[1..], b, tab);
    } else {
      assert a + b == b;
    }
  }

  /** The four tabs split the meals between them: every meal shows on exactly one tab. */
  lemma {:induction false} TabsPartitionMeals(meals: seq<Meal>)
    ensures |FilteredMeals(meals, "Café")| + |FilteredMeals(meals, "Almoço")|
            + |FilteredMeals(meals, "Lanches")| + |FilteredMeals(meals, "Jantar")| == |meals|
  {
    if meals != [] {
      var rest := meals[1..];
      TabsPartitionMeals(rest);
      var m := meals[0];
      assert |FilteredMeals(meals, "Café")| == (if m.category == Breakfast then 1 else 0) + |FilteredMeals(rest, "Café")|;
      assert |FilteredMeals(meals, "Almoço")| == (if m.category == Lunch then 1 else 0) + |FilteredMeals(rest, "Almoço")|;
      assert |FilteredMeals(meals, "Lanches")| == (if m.category == Snack then 1 else 0) + |FilteredMeals(rest, "Lanches")|;
      assert |FilteredMeals(meals, "Jantar")| == (if m.category == Dinner then 1 else 0) + |FilteredMeals(rest, "Jantar")|;
    }
  }

  /** What `handleToggleConsumed` does: the state it sends and whether it shows the points toast. */
  datatype ConsumedRequest = ConsumedRequest(consumed: bool, toast: bool)

  function HandleToggleConsumed(currentlyConsumed: bool): (r: ConsumedRequest)
    ensures r.consumed == !currentlyConsumed
    ensures r.toast <==> !currentlyConsumed
  {
    var newState := !currentlyConsumed;
    ConsumedRequest(newState, newState)
  }

  /** The "+20 PTS" badge, shown on meals not yet consumed. */
  predicate ShowPointsBadge(meal: Meal)
  {
    !meal.consumed
  }

  /** A badged meal is exactly one whose toggle marks it consumed and shows the points toast. */
  lemma BadgeMatchesToggle(meal: Meal)
    ensures ShowPointsBadge(meal) <==> HandleToggleConsumed(meal.consumed).consumed
    ensures ShowPointsBadge(meal) <==> HandleToggleConsumed(meal.consumed).toast
  {
  }

  /** The meal `handleAddMeal` logs from the form; the backend assigns its id and owner. */
  function LogMealPayload(name: string, description: string, calories: int, category: Category): (r: Meal)
    ensures r.consumed
    ensures r.name == name && r.description == description && r.calories == calories && r.category == category
    ensures r.tags == ["Log"] && r.timePrep == "Agora"
  {
    Meal("", None, name, description, calories, category,
         "https://images.unsplash.com/photo-1546069901-ba9599a7e63c?w=400&h=400&fit=crop",
         true, false, "Agora", ["Log"])
  }

  /** A logged meal never carries the points badge. */
  lemma LoggedMealHasNoBadge(name: string, description: string, calories: int, category: Category)
    ensures !ShowPointsBadge(LogMealPayload(name, description, calories, category))
  {
  }

  /** The shopping item `handleAddShoppingItem` sends: the trimmed input, or nothing when it is blank. */
  function ShoppingItemToAdd(input: string): (r: Option<string>)
    ensures r.Some? ==> r.value == Trim(input) && r.value != []
    ensures r.None? <==> Trim(input) == []
  {
    var t := Trim(input);
    if t == [] then None else Some(t)
  }

  /** Input made only of white space is never sent; any other input is. */
  lemma BlankItemsAreNotAdded(input: string)
    ensures ShoppingItemToAdd(input).None? <==> forall i :: 0 <= i < |input| ==> IsWhitespace(input[i])
  {
    TrimEmptyIffBlank(input);
  }
}
