# Meal-log store of the diet service, in Dafny

This project models the meal-log store operations of the diet service (`diet/services.py`).
A meal plan row records one food a user logged: row id, username, meal type, Korean food
description (`desc_kor`), quantity, nutrients (a map from nutrient code strings to value strings)
and the date it was eaten. The database table is modelled as the class `Services.MealPlanStore`.
It holds the rows as a `seq<MealPlan>` in insertion order, plus `nextId`, the next autoincrement id.
Its invariant `Valid()` says that ids are unique and below `nextId`.

The four operations of the store are methods. Each is proved against a specification function.

- `CreateOrUpdateMealPlan` merges on write. It finds the first row with the request's merge key
  (username, meal type, description, date). If there is one, it adds the request's quantity to
  that row. Otherwise it appends the request as a new row. The result is `Upserted`.
- `GetGroupedMealPlans` builds the grouped view of one user. It maps each date the user logged to
  the four canonical meal types (breakfast, lunch, dinner, snack) in that order. Each meal type
  holds the `{id, desc_kor, quantity, nutrients}` projections of its rows, in table order, or an
  empty list. The result is `Grouped`. It is built in two loops, as in the source: `CollectGroups`
  fills nested maps, and `CanonicalDays`/`CanonicalDay` re-key every date by `MEAL_TYPE_ORDER`.
- `UpdateMealPlan` overwrites the supplied (non-`None`) fields of the row with a given id, giving
  `Patched`. It returns `None` when no row has that id.
- `DeleteMealPlan` removes the row with a given id, giving `Removed`, and reports whether there was one.

The field shapes follow `diet/schemas.py`, not the `MealPlan` ORM class of `models.py`. That class
has no `desc_kor`, `quantity` or `nutrients` columns. A date is `Schemas.Date(year, month, day)`,
and only date equality is used. "Today" is never read from a clock. `Schemas.ResolveDate` and
`Schemas.NewMealPlanCreate` take it as a parameter and use it to fill in an omitted date, which is
what the create schema's default does.

Points of the code's behaviour that the model keeps:

- Meal types outside the canonical four appear in no list, because the re-keying loop iterates
  only over `MEAL_TYPE_ORDER`. Their date still gets four lists (`Properties.NonCanonicalRowDropped`).
  The final sort by rank is not modelled as a separate step. `Properties.GroupedDayShape` proves
  that the ranks of every date's four meal types are strictly increasing, so that sort is the identity.
- Quantity is any `int`, as the create schema accepts it.
- A date is a key of the grouped view only when the user has a row on it (`Properties.GroupedKeys`).
- The upsert never creates a second row with the same merge key (`Properties.UpsertKeepsKeysUnique`).
  A partial update can, because it overwrites fields without merging (`Properties.UpdateCanDuplicateKeys`).

The definitions without a row of their own get their meaning from lemmas. `Services.Patched` is
described by `Properties.PatchedFields` and `Properties.PatchedIdempotent`. `Services.Grouped` is
described by `Properties.GroupedKeys`, `Properties.GroupedDayShape`,
`Properties.GroupedIgnoresOtherUsers` and `Properties.NonCanonicalRowDropped`. `Services.ItemsFor`
is described by `Properties.ItemsForMembers`, `Properties.ItemsForConcat` and
`Properties.ItemsForRowsOf`. `Schemas.ResolveDate` only fills in the date default.

## Model

| member | source | states |
|---|---|---|
| Services.MealTypeRank | diet/services.py:9-14 | the rank is 1..4 at the position of a canonical meal type in MEAL_TYPE_ORDER, and 5 exactly for any other type (the `.get(x, 5)` sort key) |
| Services.FirstMatch | diet/services.py:17-24 | the result is the index of the first row with the request's merge key, or None exactly when no row has that key |
| Services.MealPlanStore.FindFirstMatch | diet/services.py:17-24 | the scan of the table returns the index of the first row with the request's merge key, or None when there is none |
| Services.Upserted | diet/services.py:26-32 | with a matching row: same row count, the first match has quantity old + new and is otherwise unchanged, all other rows unchanged; with none: exactly one row appended, carrying the request's key, quantity, nutrients and the next id, and all previous rows unchanged |
| Services.MealPlanStore.CreateOrUpdateMealPlan | diet/services.py:16-41 | the table becomes Upserted of the old table, the id counter advances only on insert, ids stay unique, and the returned row is the merged or the inserted one |
| Properties.UpsertTwiceAccumulates | diet/services.py:17-28 | logging one merge key twice with q1 and q2 gives a single row whose quantity grew by q1 + q2 (from no row: one new row of quantity q1 + q2), and nothing else changes |
| Properties.UpsertKeepsKeysUnique | diet/services.py:17-32 | if no two rows share a merge key before an upsert, none do after it |
| Properties.UpsertKeepsOtherUsers | diet/services.py:17-32 | an upsert leaves the rows of every other username exactly as they were |
| Services.RowsOf | diet/services.py:43-45 | the user's query returns no more rows than the table and holds a row exactly when it is in the table with that username |
| Properties.RowsOfConcat | diet/services.py:43-45 | the user's query keeps table order and multiplicity: the rows of a concatenated table are the concatenation of each part's rows |
| Services.MealPlanStore.CollectGroups | diet/services.py:54-63 | after the first loop, the nested map has exactly the user's dates as keys, and each (date, meal type) list is the in-order projection of the rows of that group |
| Services.CanonicalDay | diet/services.py:69-74 | the inner re-keying loop produces the canonical slots of a date's collected lists |
| Services.CanonicalDays | diet/services.py:67-76 | the re-keying loop keeps exactly the collected dates and gives each its canonical slots |
| Services.MealPlanStore.GetGroupedMealPlans | diet/services.py:49-78 | the returned view equals Grouped of the user's rows |
| Properties.GroupedKeys | diet/services.py:50-63 | a date is a key of the view if and only if some row of the user has that date |
| Properties.GroupedDayShape | diet/services.py:66-76 | every date maps to exactly four slots, breakfast, lunch, dinner, snack, in strictly increasing rank, so the rank sort is the identity |
| Properties.ItemsForMembers | diet/services.py:56-63 | an item is in a (date, meal type) list if and only if some row of the user with that date and meal type projects to it |
| Properties.ItemsForConcat | diet/services.py:56-63 | the lists keep table order: the list of a concatenation of tables is the concatenation of the lists |
| Properties.ItemsForRowsOf | diet/services.py:50-63 | filtering the table on the user first leaves every list unchanged |
| Properties.GroupedIgnoresOtherUsers | diet/services.py:50-63 | the view of the whole table equals the view of the user's rows alone: rows of other usernames contribute nothing |
| Properties.NonCanonicalRowDropped | diet/services.py:67-74 | a row whose meal type is not canonical changes no existing date's slots, adds its date, and a new date gets four empty lists |
| Services.IndexOfId | diet/services.py:83-85 | the result is the index of the first row with the id, or None exactly when no row has it |
| Services.MealPlanStore.FindById | diet/services.py:83-85 | the scan of the table returns the index of the first row with the id, or None when there is none |
| Services.MealPlanStore.UpdateMealPlan | diet/services.py:81-106 | with no row of that id: returns None and the table is unchanged; otherwise only that row is replaced by its patched version, which is returned |
| Properties.PatchedFields | diet/services.py:90-100 | each supplied field takes the supplied value, each omitted field keeps its value, and id and username never change |
| Properties.PatchedIdempotent | diet/services.py:90-100 | an update that supplies nothing changes nothing, and applying an update twice is applying it once |
| Properties.UpdateKeepsId | diet/services.py:91-100 | after an update, the same row is still the one found under the id |
| Properties.UpdateCanDuplicateKeys | diet/services.py:93-94 | updating a description can make two rows share a merge key, because the update does not merge |
| Services.Removed | diet/services.py:114 | one row fewer; the rows before the removed index are unchanged and the rows after it move down by one, in order |
| Services.RemovedKeepsIdsUnique | diet/services.py:114 | removing a row keeps ids unique |
| Services.MealPlanStore.DeleteMealPlan | diet/services.py:108-117 | returns true exactly when a row has the id, and then removes exactly that row; otherwise returns false and the table is unchanged |
| Properties.DeleteRemovesExactlyThatRow | diet/services.py:108-117 | with unique ids, deleting removes one row: no row of that id remains, every other row remains, the multiset loses exactly that row, and a second delete finds nothing |
| Services.MealPlanStore.constructor | models.py:20 | a new table is empty and its autoincrement starts at 1 |

`Properties.LogTwiceLeavesOneRow` is a client of the store. It logs quantity 1 and then 2 of one
meal, and shows from the method contracts alone that one row of quantity 3 results. It then shows
that deleting that row succeeds once and fails the second time.

## Left out

- Services.Upserted: the foreign key from `username` to `user_health_profiles.username` (models.py:21) is not modelled, and neither are the health profiles. So the model's insert always succeeds. The service's insert fails at commit (diet/services.py:34) for a username that has no health profile, and then nothing is inserted.
- The `current_date is None` branch of the upsert's filter at diet/services.py:21 is not modelled. There the condition parses as `(column == date) if date else date.today()`, and its SQL meaning depends on the database library. A request always carries a resolved date (`ResolveDate`); a client that explicitly sends a null date is not modelled.
- Services.MealPlanStore.GetGroupedMealPlans: the view is a Dafny `map`, so the insertion order of dates in the Python dict is not captured; the order of meal types within a date and of items within a list is.
- Quantity is an unbounded integer: the overflow of a 32-bit database integer column is not modelled.
- The value returned after commit and refresh is the stored row itself; commit, refresh, async execution and concurrent upserts racing on the same key are not modelled.
- Nutrient values stay strings. They are never parsed, since the store does not interpret them.
- Schemas.MealPlanUpdate: the update schema accepts any JSON object as `nutrients`, which the update stores as given. The model narrows it to a string-to-string map, the shape of the create schema's `nutrients`. The store never reads the value.
- Result order: the model returns query results in insertion order and updates rows in place. The SQL selects have no ORDER BY, so the database does not guarantee that order. In PostgreSQL an updated row is usually returned after the others. That order also decides which of two rows with the same merge key `first()` merges into, and such duplicates can arise after an update. This affects the order of the lists in the grouped view, the result of the user's query, and the choice of the first match.
- HTTP routing, CORS, request logging, the outbound nutrition lookup, token verification, the database engine and session setup, and the health-profile CRUD are not part of this model. They are web and database plumbing with no store logic.
- Calorie totals, BMR/BMI, diet recommendation, macro split and the meal catalogue filter are not part of this model. No file of the service implements them.
