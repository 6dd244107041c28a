/**
 * The entities the views exchange with the backend (meals, scheduled
 * activities), as plain values. Optional columns that the views read with a
 * fallback are `Option`s.
 */
module Records {
  import opened Common

  /** Meal category; the `category` column of a meal. */
  datatype Category = Breakfast | Lunch | Snack | Dinner

  datatype Meal = Meal(
    id: string,
    owner: Option<string>,
    name: string,
    description: string,
    calories: int,
    category: Category,
    image: string,
    consumed: bool,
    isSuggestion: bool,
    timePrep: string,
    tags: seq<string>)

  /** A scheduled activity as the timeline receives it; display columns may be missing. */
  datatype Activity = Activity(
    id: string,
    title: string,
    timeLabel: Option<string>,
    duration: Option<string>,
    icon: Option<string>,
    kind: string,
    completed: bool)
}
