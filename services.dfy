/**
 * The meal-log store operations of the diet service (diet/services.py).
 * The database table is a sequence of rows held by MealPlanStore; each
 * operation is a method proved against the specification functions below.
 */
module Services {
  import opened Wrappers
  import opened Schemas

  /** The canonical meal types, in the order the grouped view lists them. */
  const MealTypeOrder: seq<string> := ["breakfast", "lunch", "dinner", "snack"]

  /** The sort key of a meal type: its position in MealTypeOrder from 1, and 5 for any other type. */
  function MealTypeRank(mealType: string): (rank: int)
    ensures 1 <= rank <= 5
    ensures rank < 5 <==> mealType in MealTypeOrder
    ensures forall k :: 0 <= k < |MealTypeOrder| && MealTypeOrder[k] == mealType ==> rank == k + 1
  {
    if mealType == "breakfast" then 1
    else if mealType == "lunch" then 2
    else if mealType == "dinner" then 3
    else if mealType == "snack" then 4
    else 5
  }

  // ---------------------------------------------------------------------
  // Merge-on-write upsert
  // ---------------------------------------------------------------------

  /** The merge key of the upsert: username, meal type, description and date. */
  datatype MergeKey = MergeKey(username: string, mealType: string, descKor: string, currentDate: Date)

  /** The merge key of a stored row. */
  function RowKey(p: MealPlan): MergeKey
  {
    MergeKey(p.username, p.mealType, p.descKor, p.currentDate)
  }

  /** The merge key of a create request. */
  function RequestKey(c: MealPlanCreate): MergeKey
  {
    MergeKey(c.username, c.mealType, c.descKor, c.currentDate)
  }

  /** The index of the first row with the request's merge key, if any. */
  function FirstMatch(rows: seq<MealPlan>, c: MealPlanCreate): (r: Option<nat>)
    ensures r.Some? ==> r.value < |rows| && RowKey(rows[r.value]) == RequestKey(c)
    ensures r.Some? ==> forall j :: 0 <= j < r.value ==> RowKey(rows[j]) != RequestKey(c)
    ensures r.None? <==> forall j :: 0 <= j < |rows| ==> RowKey(rows[j]) != RequestKey(c)
  {
    if rows == [] then None
    else if RowKey(rows[0]) == RequestKey(c) then Some(0)
    else match FirstMatch(rows[1..], c)
      case None => None
      case Some(i) => Some(i + 1)
  }

  /** The row a request becomes when it is inserted with the given id. */
  function NewRow(c: MealPlanCreate, id: int): MealPlan
  {
    MealPlan(id, c.username, c.mealType, c.descKor, c.quantity, c.nutrients, c.currentDate)
  }

  /**
   * The table after an upsert: the first row with the request's key gets the
   * request's quantity added and nothing else changes; without such a row the
   * request is appended as a new row with id `nextId`.
   */
  function Upserted(rows: seq<MealPlan>, nextId: int, c: MealPlanCreate): (r: seq<MealPlan>)
    ensures FirstMatch(rows, c).Some? ==>
      var i := FirstMatch(rows, c).value;
      && |r| == |rows|
      && r[i] == rows[i].(quantity := rows[i].quantity + c.quantity)
      && forall j :: 0 <= j < |rows| && j != i ==> r[j] == rows[j]
    ensures FirstMatch(rows, c).None? ==>
      && |r| == |rows| + 1
      && r[..|rows|] == rows
      && r[|rows|].id == nextId
      && RowKey(r[|rows|]) == RequestKey(c)
      && r[|rows|].quantity == c.quantity && r[|rows|].nutrients == c.nutrients
  {
    match FirstMatch(rows, c)
    case Some(i) => rows[i := rows[i].(quantity := rows[i].quantity + c.quantity)]
    case None => rows + [NewRow(c, nextId)]
  }

  /** The id counter after an upsert: it advances exactly when a row is inserted. */
  function NextIdAfter(rows: seq<MealPlan>, nextId: int, c: MealPlanCreate): int
  {
    if FirstMatch(rows, c).Some? then nextId else nextId + 1
  }

  // ---------------------------------------------------------------------
  // Lookup, partial update and delete by id
  // ---------------------------------------------------------------------

  /** The index of the first row with the given id, if any. */
  function IndexOfId(rows: seq<MealPlan>, id: int): (r: Option<nat>)
    ensures r.Some? ==> r.value < |rows| && rows[r.value].id == id
    ensures r.Some? ==> forall j :: 0 <= j < r.value ==> rows[j].id != id
    ensures r.None? <==> forall j :: 0 <= j < |rows| ==> rows[j].id != id
  {
    if rows == [] then None
    else if rows[0].id == id then Some(0)
    else match IndexOfId(rows[1..], id)
      case None => None
      case Some(i) => Some(i + 1)
  }

  /** A row with the supplied fields of an update written over it. */
  function Patched(p: MealPlan, u: MealPlanUpdate): MealPlan
  {
    var p1 := if u.mealType.Some? then p.(mealType := u.mealType.value) else p;
    var p2 := if u.descKor.Some? then p1.(descKor := u.descKor.value) else p1;
    var p3 := if u.quantity.Some? then p2.(quantity := u.quantity.value) else p2;
    var p4 := if u.nutrients.Some? then p3.(nutrients := u.nutrients.value) else p3;
    if u.currentDate.Some? then p4.(currentDate := u.currentDate.value) else p4
  }

  /** The table without the row at index i; the rest keep their order. */
  function Removed(rows: seq<MealPlan>, i: nat): (r: seq<MealPlan>)
    requires i < |rows|
    ensures |r| == |rows| - 1
    ensures forall j :: 0 <= j < i ==> r[j] == rows[j]
    ensures forall j :: i <= j < |r| ==> r[j] == rows[j + 1]
  {
    rows[..i] + rows[i + 1..]
  }

  /** No two rows share an id. */
  ghost predicate IdsUnique(rows: seq<MealPlan>)
  {
    forall i, j :: 0 <= i < j < |rows| ==> rows[i].id != rows[j].id
  }

  /** Removing a row keeps ids unique, since every remaining row is an old one. */
  lemma RemovedKeepsIdsUnique(rows: seq<MealPlan>, i: nat)
    requires i < |rows| && IdsUnique(rows)
    ensures IdsUnique(Removed(rows, i))
  {
  }

  // ---------------------------------------------------------------------
  // Per-user query and grouped view
  // ---------------------------------------------------------------------

  /** The rows of one user, in table order. */
  function RowsOf(rows: seq<MealPlan>, username: string): (r: seq<MealPlan>)
    ensures |r| <= |rows|
    ensures forall p :: p in r <==> p in rows && p.username == username
  {
    if rows == [] then []
    else RowsOf(rows[..|rows| - 1], username) +
         (if rows[|rows| - 1].username == username then [rows[|rows| - 1]] else [])
  }

  /** The projection of a row that the grouped view keeps. */
  function Project(p: MealPlan): MealItem
  {
    MealItem(p.id, p.descKor, p.quantity, p.nutrients)
  }

  /** Does row p belong to the group (username, date, meal type)? */
  predicate InGroup(p: MealPlan, username: string, date: Date, mealType: string)
  {
    p.username == username && p.currentDate == date && p.mealType == mealType
  }

  /** The projections of the rows in one (username, date, meal type) group, in table order. */
  function ItemsFor(rows: seq<MealPlan>, username: string, date: Date, mealType: string): (r: seq<MealItem>)
    ensures |r| <= |rows|
  {
    if rows == [] then []
    else ItemsFor(rows[..|rows| - 1], username, date, mealType) +
         (if InGroup(rows[|rows| - 1], username, date, mealType) then [Project(rows[|rows| - 1])] else [])
  }

  /** The dates on which the user logged anything, whatever the meal type. */
  ghost function DatesOf(rows: seq<MealPlan>, username: string): set<Date>
  {
    set i | 0 <= i < |rows| && rows[i].username == username :: rows[i].currentDate
  }

  /** The four canonical slots of one date, in canonical order. */
  function DaySlots(rows: seq<MealPlan>, username: string, date: Date): (r: seq<MealSlot>)
    ensures |r| == |MealTypeOrder|
    ensures forall k :: 0 <= k < |r| ==> r[k] == MealSlot(MealTypeOrder[k], ItemsFor(rows, username, date, MealTypeOrder[k]))
  {
    seq(|MealTypeOrder|, k requires 0 <= k < |MealTypeOrder| =>
      MealSlot(MealTypeOrder[k], ItemsFor(rows, username, date, MealTypeOrder[k])))
  }

  /** The grouped view of one user: every date they logged, with its four canonical slots. */
  ghost function Grouped(rows: seq<MealPlan>, username: string): GroupedMealPlans
  {
    map d | d in DatesOf(rows, username) :: DaySlots(rows, username, d)
  }

  /** A defaultdict read without insertion: the list under a key, or the empty list. */
  function Lookup(meals: map<string, seq<MealItem>>, mealType: string): seq<MealItem>
  {
    if mealType in meals then meals[mealType] else []
  }

  /** Extending the table by one row extends each group by that row's projection when it belongs. */
  lemma ItemsForSnoc(rows: seq<MealPlan>, p: MealPlan, username: string, date: Date, mealType: string)
    ensures ItemsFor(rows + [p], username, date, mealType) ==
            ItemsFor(rows, username, date, mealType) +
            (if InGroup(p, username, date, mealType) then [Project(p)] else [])
  {
  }

  /** A date on which the user logged nothing has no items in any group. */
  lemma {:induction false} ItemsForAbsentDate(rows: seq<MealPlan>, username: string, date: Date, mealType: string)
    requires date !in DatesOf(rows, username)
    ensures ItemsFor(rows, username, date, mealType) == []
  {
    if rows != [] {
      var init := rows[..|rows| - 1];
      forall i | 0 <= i < |init| && init[i].username == username
        ensures init[i].currentDate != date
      {
        assert init[i] == rows[i];
      }
      ItemsForAbsentDate(init, username, date, mealType);
      assert rows[|rows| - 1].username == username ==> rows[|rows| - 1].currentDate in DatesOf(rows, username);
    }
  }

  /** Extending the table by one row adds that row's date when it is the user's. */
  lemma DatesOfSnoc(rows: seq<MealPlan>, p: MealPlan, username: string)
    ensures DatesOf(rows + [p], username) ==
            DatesOf(rows, username) + (if p.username == username then {p.currentDate} else {})
  {
    var s := rows + [p];
    forall d | d in DatesOf(s, username)
      ensures d in DatesOf(rows, username) + (if p.username == username then {p.currentDate} else {})
    {
      var i :| 0 <= i < |s| && s[i].username == username && s[i].currentDate == d;
      if i < |rows| {
        assert rows[i] == s[i];
      }
    }
    forall d | d in DatesOf(rows, username)
      ensures d in DatesOf(s, username)
    {
      var i :| 0 <= i < |rows| && rows[i].username == username && rows[i].currentDate == d;
      assert s[i] == rows[i];
    }
    if p.username == username {
      assert s[|rows|] == p;
    }
  }

  /** `grouped` holds, per date of the user, each meal type's items as collected from `rows`. */
  ghost predicate CollectsGroups(grouped: map<Date, map<string, seq<MealItem>>>, rows: seq<MealPlan>, username: string)
  {
    && grouped.Keys == DatesOf(rows, username)
    && forall d, mt :: d in grouped ==> Lookup(grouped[d], mt) == ItemsFor(rows, username, d, mt)
  }

  /** `grouped_data[date][meal_type].append(...)` on nested defaultdicts: p's projection goes at the end of its list. */
  function AppendItem(grouped: map<Date, map<string, seq<MealItem>>>, p: MealPlan): map<Date, map<string, seq<MealItem>>>
  {
    var meals := if p.currentDate in grouped then grouped[p.currentDate] else map[];
    grouped[p.currentDate := meals[p.mealType := Lookup(meals, p.mealType) + [Project(p)]]]
  }

  /** One step of the collecting loop keeps the collected lists equal to the groups of the rows seen so far. */
  lemma CollectStep(grouped: map<Date, map<string, seq<MealItem>>>, rows: seq<MealPlan>, p: MealPlan, username: string)
    requires CollectsGroups(grouped, rows, username)
    ensures CollectsGroups(if p.username == username then AppendItem(grouped, p) else grouped, rows + [p], username)
  {
    DatesOfSnoc(rows, p, username);
    var after := if p.username == username then AppendItem(grouped, p) else grouped;
    forall d, mt | d in after
      ensures Lookup(after[d], mt) == ItemsFor(rows + [p], username, d, mt)
    {
      ItemsForSnoc(rows, p, username, d, mt);
      if d !in grouped {
        ItemsForAbsentDate(rows, username, d, mt);
      }
    }
  }

  /** The canonical slots of one date's collected lists, an absent meal type as the empty list. */
  function CanonicalSlots(meals: map<string, seq<MealItem>>): (r: seq<MealSlot>)
    ensures |r| == |MealTypeOrder|
    ensures forall k :: 0 <= k < |r| ==> r[k] == MealSlot(MealTypeOrder[k], Lookup(meals, MealTypeOrder[k]))
  {
    seq(|MealTypeOrder|, k requires 0 <= k < |MealTypeOrder| => MealSlot(MealTypeOrder[k], Lookup(meals, MealTypeOrder[k])))
  }

  /** The inner loop of the re-keying: one slot per canonical meal type, in order. */
  method CanonicalDay(meals: map<string, seq<MealItem>>) returns (slots: seq<MealSlot>)
    ensures slots == CanonicalSlots(meals)
  {
    slots := [];
    for k := 0 to |MealTypeOrder|
      invariant |slots| == k
      invariant forall j :: 0 <= j < k ==> slots[j] == MealSlot(MealTypeOrder[j], Lookup(meals, MealTypeOrder[j]))
    {
      var mealType := MealTypeOrder[k];
      if mealType in meals {
        slots := slots + [MealSlot(mealType, meals[mealType])];
      } else {
        slots := slots + [MealSlot(mealType, [])];
      }
    }
  }

  /** The re-keying loop: every collected date gets its canonical slots; other meal types are dropped. */
  method CanonicalDays(grouped: map<Date, map<string, seq<MealItem>>>) returns (g: GroupedMealPlans)
    ensures g.Keys == grouped.Keys
    ensures forall d :: d in g ==> g[d] == CanonicalSlots(grouped[d])
  {
    g := map[];
    var pending := grouped.Keys;
    while pending != {}
      invariant pending <= grouped.Keys
      invariant g.Keys == grouped.Keys - pending
      invariant forall d :: d in g ==> g[d] == CanonicalSlots(grouped[d])
      decreases pending
    {
      var d :| d in pending;
      var slots := CanonicalDay(grouped[d]);
      g := g[d := slots];
      pending := pending - {d};
    }
  }

  // ---------------------------------------------------------------------
  // The store
  // ---------------------------------------------------------------------

  /** The meal_plans table: its rows in table order and the next autoincrement id. */
  class MealPlanStore {
    var rows: seq<MealPlan>
    var nextId: int

    /** Ids are unique and below the next id the table will hand out. */
    ghost predicate Valid()
      reads this
    {
      IdsUnique(rows) && forall i :: 0 <= i < |rows| ==> rows[i].id < nextId
    }

    /** An empty table whose autoincrement starts at 1. */
    constructor ()
      ensures Valid() && rows == [] && nextId == 1
    {
      rows := [];
      nextId := 1;
    }

    /** The query of the upsert: the first row with the request's merge key. */
    method FindFirstMatch(c: MealPlanCreate) returns (r: Option<nat>)
      ensures r == FirstMatch(rows, c)
    {
      var i := 0;
      while i < |rows|
        invariant 0 <= i <= |rows|
        invariant forall j :: 0 <= j < i ==> RowKey(rows[j]) != RequestKey(c)
      {
        if RowKey(rows[i]) == RequestKey(c) {
          return Some(i);
        }
        i := i + 1;
      }
      return None;
    }

    /**
     * Merge-on-write: adds the request's quantity to the first row with its
     * key, or inserts the request as a new row; returns the saved row.
     */
    method CreateOrUpdateMealPlan(c: MealPlanCreate) returns (saved: MealPlan)
      requires Valid()
      modifies this
      ensures Valid()
      ensures rows == Upserted(old(rows), old(nextId), c)
      ensures nextId == NextIdAfter(old(rows), old(nextId), c)
      ensures FirstMatch(old(rows), c).Some? ==> saved == rows[FirstMatch(old(rows), c).value]
      ensures FirstMatch(old(rows), c).None? ==> saved == rows[|rows| - 1] && saved.id == old(nextId)
    {
      var found := FindFirstMatch(c);
      match found
      case Some(i) =>
        rows := rows[i := rows[i].(quantity := rows[i].quantity + c.quantity)];
        saved := rows[i];
      case None =>
        saved := NewRow(c, nextId);
        rows := rows + [saved];
        nextId := nextId + 1;
    }

    /** The query of update and delete: the row with the given id. */
    method FindById(id: int) returns (r: Option<nat>)
      ensures r == IndexOfId(rows, id)
    {
      var i := 0;
      while i < |rows|
        invariant 0 <= i <= |rows|
        invariant forall j :: 0 <= j < i ==> rows[j].id != id
      {
        if rows[i].id == id {
          return Some(i);
        }
        i := i + 1;
      }
      return None;
    }

    /**
     * Partial update by id: overwrites the supplied fields of the row with
     * that id and returns it, or returns None when there is no such row.
     */
    method UpdateMealPlan(id: int, u: MealPlanUpdate) returns (r: Option<MealPlan>)
      requires Valid()
      modifies this
      ensures Valid() && nextId == old(nextId)
      ensures IndexOfId(old(rows), id).None? ==> r.None? && rows == old(rows)
      ensures IndexOfId(old(rows), id).Some? ==>
        var i := IndexOfId(old(rows), id).value;
        rows == old(rows)[i := Patched(old(rows)[i], u)] && r == Some(rows[i])
    {
      var found := FindById(id);
      if found.None? {
        return None;
      }
      var i := found.value;
      var p := rows[i];
      if u.mealType.Some? {
        p := p.(mealType := u.mealType.value);
      }
      if u.descKor.Some? {
        p := p.(descKor := u.descKor.value);
      }
      if u.quantity.Some? {
        p := p.(quantity := u.quantity.value);
      }
      if u.nutrients.Some? {
        p := p.(nutrients := u.nutrients.value);
      }
      if u.currentDate.Some? {
        p := p.(currentDate := u.currentDate.value);
      }
      rows := rows[i := p];
      r := Some(p);
    }

    /** Delete by id: removes the row with that id and reports whether there was one. */
    method DeleteMealPlan(id: int) returns (deleted: bool)
      requires Valid()
      modifies this
      ensures Valid() && nextId == old(nextId)
      ensures deleted <==> IndexOfId(old(rows), id).Some?
      ensures deleted ==> rows == Removed(old(rows), IndexOfId(old(rows), id).value)
      ensures !deleted ==> rows == old(rows)
    {
      var found := FindById(id);
      if found.None? {
        return false;
      }
      RemovedKeepsIdsUnique(rows, found.value);
      rows := Removed(rows, found.value);
      return true;
    }

    /**
     * The first loop of the grouped view: every row of the user is appended
     * to the list of its (date, meal type), the lists kept in a nested map.
     */
    method CollectGroups(username: string) returns (grouped: map<Date, map<string, seq<MealItem>>>)
      ensures CollectsGroups(grouped, rows, username)
    {
      grouped := map[];
      var i := 0;
      while i < |rows|
        invariant 0 <= i <= |rows|
        invariant CollectsGroups(grouped, rows[..i], username)
      {
        var p := rows[i];
        assert rows[..i + 1] == rows[..i] + [p];
        CollectStep(grouped, rows[..i], p, username);
        if p.username == username {
          grouped := AppendItem(grouped, p);
        }
        i := i + 1;
      }
      assert rows[..i] == rows;
    }

    /**
     * The grouped view of one user's rows: every date they logged, each with
     * the four canonical meal types in order, an absent one as an empty list.
     */
    method GetGroupedMealPlans(username: string) returns (g: GroupedMealPlans)
      ensures g == Grouped(rows, username)
    {
      var grouped := CollectGroups(username);
      g := CanonicalDays(grouped);
      forall d | d in g
        ensures g[d] == DaySlots(rows, username, d)
      {
        assert CanonicalSlots(grouped[d]) == DaySlots(rows, username, d);
      }
    }
  }
}
