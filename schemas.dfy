/**
 * The shapes of meal-log rows, the create and partial-update requests, and
 * the grouped view, following the request and response schemas of the diet
 * service (diet/schemas.py).
 */
module Schemas {
  import opened Wrappers

  /** A calendar date without a time component; the store only compares dates for equality. */
  datatype Date = Date(year: int, month: int, day: int)

  /** Nutrient code to value, both kept as the strings the client sent. */
  type Nutrients = map<string, string>

  /** One stored meal-log row: the fields of MealPlanBase plus the row id. */
  datatype MealPlan = MealPlan(
    id: int,
    username: string,
    mealType: string,
    descKor: string,
    quantity: int,
    nutrients: Nutrients,
    currentDate: Date)

  /** A request to log a meal; the date has already been resolved (see ResolveDate). */
  datatype MealPlanCreate = MealPlanCreate(
    mealType: string,
    username: string,
    descKor: string,
    quantity: int,
    nutrients: Nutrients,
    currentDate: Date)

  /** A partial update: `None` marks a field the client did not supply. */
  datatype MealPlanUpdate = MealPlanUpdate(
    mealType: Option<string>,
    descKor: Option<string>,
    quantity: Option<int>,
    nutrients: Option<Nutrients>,
    currentDate: Option<Date>)

  /** The per-row projection kept in the grouped view. */
  datatype MealItem = MealItem(id: int, descKor: string, quantity: int, nutrients: Nutrients)

  /** One meal type of one date in the grouped view, with its items in row order. */
  datatype MealSlot = MealSlot(mealType: string, items: seq<MealItem>)

  /** date -> the meal types of that date, each with its items. */
  type GroupedMealPlans = map<Date, seq<MealSlot>>

  /**
   * The create schema's default for an omitted date: the caller's notion of
   * today, passed in explicitly instead of read from a clock.
   */
  function ResolveDate(supplied: Option<Date>, today: Date): (d: Date)
    ensures supplied.Some? ==> d == supplied.value
    ensures supplied.None? ==> d == today
  {
    match supplied
    case Some(day) => day
    case None => today
  }

  /** Builds a create request the way the schema does, defaulting the date to `today`. */
  function NewMealPlanCreate(mealType: string, username: string, descKor: string, quantity: int,
                             nutrients: Nutrients, currentDate: Option<Date>, today: Date): MealPlanCreate
  {
    MealPlanCreate(mealType, username, descKor, quantity, nutrients, ResolveDate(currentDate, today))
  }
}
